/** The offline stereo merge: two streams of camera timestamps paired by a greedy
    two-pointer walk. It loses no frame, and no other way of pairing frames
    within the tolerance yields more pairs. */
module FramePairing {

  /** Nanoseconds; the code's signed differences are exact for these. */
  type Stamp = t: int | 0 <= t < 0x8000_0000_0000_0000

  datatype FramePair = FramePair(pairId: nat, stamp0: Stamp, stamp1: Stamp, index0: nat, index1: nat, skew: int)

  datatype PairStats = PairStats(paired: nat, unpaired0: nat, unpaired1: nat, maxAbsSkew: nat) {
    predicate AccountsFor(countA: nat, countB: nat) {
      2 * paired + unpaired0 + unpaired1 == countA + countB
    }
  }

  datatype PairResult = PairResult(pairs: seq<FramePair>, unpaired0: seq<nat>, unpaired1: seq<nat>, stats: PairStats)

  // ------------------------------------------------------------ specification

  /** What happens to the oldest frame or frames: two frames leave as a pair, or
      one leaves on its own. */
  datatype Disposition =
    | Together(i: nat, j: nat)
    | Alone0(i: nat)
    | Alone1(j: nat)

  function Abs(x: int): nat {
    if x < 0 then -x else x
  }

  function Difference(x: int, y: int): int {
    x - y
  }

  predicate Close(x: Stamp, y: Stamp, tolerance: nat) {
    Abs(x - y) <= tolerance
  }

  /** No further apart than the tolerance. */
  predicate InReach(x: Stamp, y: Stamp, tolerance: nat) {
    x <= y + tolerance && y <= x + tolerance
  }

  /** What becomes of two heads: decided by these two stamps alone. */
  function Decide(x: Stamp, y: Stamp, tolerance: nat, i: nat, j: nat): Disposition {
    if Close(x, y, tolerance) then Together(i, j)
    else if x < y then Alone0(i)
    else Alone1(j)
  }

  /** The merge of `a` from `i` on with `b` from `j` on, as the order in which the
      frames are disposed of. */
  function Merge(a: seq<Stamp>, b: seq<Stamp>, tolerance: nat, i: nat, j: nat): seq<Disposition>
    requires i <= |a| && j <= |b|
    decreases |a| - i + |b| - j
  {
    if i < |a| && j < |b| then
      var d := Decide(a[i], b[j], tolerance, i, j);
      [d] + Merge(a, b, tolerance, i + Step0(d), j + Step1(d))
    else if i < |a| then [Alone0(i)] + Merge(a, b, tolerance, i + 1, j)
    else if j < |b| then [Alone1(j)] + Merge(a, b, tolerance, i, j + 1)
    else []
  }

  function Step0(d: Disposition): nat {
    if d.Alone1? then 0 else 1
  }

  function Step1(d: Disposition): nat {
    if d.Alone0? then 0 else 1
  }

  /** The merge's next disposition. */
  function Head(a: seq<Stamp>, b: seq<Stamp>, tolerance: nat, i: nat, j: nat): (d: Disposition)
    requires i <= |a| && j <= |b| && (i < |a| || j < |b|)
    ensures !d.Alone1? ==> i < |a| && d.i == i
    ensures !d.Alone0? ==> j < |b| && d.j == j
    ensures d.Together? ==> Close(a[i], b[j], tolerance)
  {
    if i == |a| then Alone1(j) else if j == |b| then Alone0(i) else Decide(a[i], b[j], tolerance, i, j)
  }

  lemma MergeStep(a: seq<Stamp>, b: seq<Stamp>, tolerance: nat, i: nat, j: nat)
    requires i <= |a| && j <= |b| && (i < |a| || j < |b|)
    ensures var d := Head(a, b, tolerance, i, j);
            var ds := Merge(a, b, tolerance, i, j);
            ds != [] && ds[0] == d && ds[1..] == Merge(a, b, tolerance, i + Step0(d), j + Step1(d))
  {
  }

  lemma MergeOver(a: seq<Stamp>, b: seq<Stamp>, tolerance: nat)
    ensures Merge(a, b, tolerance, |a|, |b|) == []
  {
  }

  /** The frames of one stream in the order they were disposed of. */
  function Order0(ds: seq<Disposition>): seq<nat> {
    if ds == [] then []
    else if ds[0].Alone1? then Order0(ds[1..])
    else [ds[0].i] + Order0(ds[1..])
  }

  function Order1(ds: seq<Disposition>): seq<nat> {
    if ds == [] then []
    else if ds[0].Alone0? then Order1(ds[1..])
    else [ds[0].j] + Order1(ds[1..])
  }

  function Singles0(ds: seq<Disposition>): seq<nat> {
    if ds == [] then []
    else if ds[0].Alone0? then [ds[0].i] + Singles0(ds[1..])
    else Singles0(ds[1..])
  }

  function Singles1(ds: seq<Disposition>): seq<nat> {
    if ds == [] then []
    else if ds[0].Alone1? then [ds[0].j] + Singles1(ds[1..])
    else Singles1(ds[1..])
  }

  ghost predicate Within(ds: seq<Disposition>, countA: nat, countB: nat) {
    forall k | 0 <= k < |ds| :: (!ds[k].Alone1? ==> ds[k].i < countA) && (!ds[k].Alone0? ==> ds[k].j < countB)
  }

  /** The pairs, numbered from `n` in the order they are made. */
  function PairsIn(a: seq<Stamp>, b: seq<Stamp>, ds: seq<Disposition>, n: nat): seq<FramePair>
    requires Within(ds, |a|, |b|)
  {
    if ds == [] then []
    else if ds[0].Together? then
      var i, j := ds[0].i, ds[0].j;
      [FramePair(n, a[i], b[j], i, j, Difference(b[j], a[i]))] + PairsIn(a, b, ds[1..], n + 1)
    else PairsIn(a, b, ds[1..], n)
  }

  /** The largest skew of any pair. */
  ghost predicate IsWorstSkew(pairs: seq<FramePair>, worst: nat) {
    && (forall p | p in pairs :: Abs(p.skew) <= worst)
    && (worst == 0 || exists p :: p in pairs && Abs(p.skew) == worst)
  }

  lemma {:induction false} MergeWithin(a: seq<Stamp>, b: seq<Stamp>, tolerance: nat, i: nat, j: nat)
    requires i <= |a| && j <= |b|
    ensures Within(Merge(a, b, tolerance, i, j), |a|, |b|)
    decreases |a| - i + |b| - j
  {
    var ds := Merge(a, b, tolerance, i, j);
    if i < |a| || j < |b| {
      MergeStep(a, b, tolerance, i, j);
      MergeWithin(a, b, tolerance, i + Step0(ds[0]), j + Step1(ds[0]));
      hide Merge;
      assert forall k | 0 < k < |ds| :: ds[k] == ds[1..][k - 1];
    }
  }

  // ------------------------------------------------------------------ the code

  function PairsFrom(a: seq<Stamp>, b: seq<Stamp>, tolerance: nat, i: nat, j: nat, n: nat): seq<FramePair>
    requires i <= |a| && j <= |b|
  {
    MergeWithin(a, b, tolerance, i, j);
    PairsIn(a, b, Merge(a, b, tolerance, i, j), n)
  }

  function Singles0From(a: seq<Stamp>, b: seq<Stamp>, tolerance: nat, i: nat, j: nat): seq<nat>
    requires i <= |a| && j <= |b|
  {
    Singles0(Merge(a, b, tolerance, i, j))
  }

  function Singles1From(a: seq<Stamp>, b: seq<Stamp>, tolerance: nat, i: nat, j: nat): seq<nat>
    requires i <= |a| && j <= |b|
  {
    Singles1(Merge(a, b, tolerance, i, j))
  }

  /** The result vectors hold what the merge disposed of before `i` and `j`. */
  ghost predicate Upto(a: seq<Stamp>, b: seq<Stamp>, tolerance: nat, i: nat, j: nat,
                       pairs: seq<FramePair>, alone0: seq<nat>, alone1: seq<nat>) {
    && i <= |a| && j <= |b| && 2 * |pairs| + |alone0| + |alone1| == i + j
    && pairs + PairsFrom(a, b, tolerance, i, j, |pairs|) == PairsFrom(a, b, tolerance, 0, 0, 0)
    && alone0 + Singles0From(a, b, tolerance, i, j) == Singles0From(a, b, tolerance, 0, 0)
    && alone1 + Singles1From(a, b, tolerance, i, j) == Singles1From(a, b, tolerance, 0, 0)
  }

  lemma UptoStart(a: seq<Stamp>, b: seq<Stamp>, tolerance: nat)
    ensures Upto(a, b, tolerance, 0, 0, [], [], [])
  {
  }

  lemma UptoEnd(a: seq<Stamp>, b: seq<Stamp>, tolerance: nat,
                pairs: seq<FramePair>, alone0: seq<nat>, alone1: seq<nat>)
    requires Upto(a, b, tolerance, |a|, |b|, pairs, alone0, alone1)
    ensures pairs == PairsFrom(a, b, tolerance, 0, 0, 0)
    ensures alone0 == Singles0From(a, b, tolerance, 0, 0)
    ensures alone1 == Singles1From(a, b, tolerance, 0, 0)
    ensures 2 * |pairs| + |alone0| + |alone1| == |a| + |b|
  {
  }

  /** What the next disposition adds to each result vector. */
  lemma Dispose(a: seq<Stamp>, b: seq<Stamp>, tolerance: nat, i: nat, j: nat, n: nat)
    requires i <= |a| && j <= |b| && (i < |a| || j < |b|)
    ensures var d := Head(a, b, tolerance, i, j);
            var i', j' := i + Step0(d), j + Step1(d);
            && PairsFrom(a, b, tolerance, i, j, n) ==
                 (if d.Together? then
                    [FramePair(n, a[i], b[j], i, j, Difference(b[j], a[i]))] + PairsFrom(a, b, tolerance, i', j', n + 1)
                  else PairsFrom(a, b, tolerance, i', j', n))
            && Singles0From(a, b, tolerance, i, j) ==
                 (if d.Alone0? then [i] + Singles0From(a, b, tolerance, i', j')
                  else Singles0From(a, b, tolerance, i', j'))
            && Singles1From(a, b, tolerance, i, j) ==
                 (if d.Alone1? then [j] + Singles1From(a, b, tolerance, i', j')
                  else Singles1From(a, b, tolerance, i', j'))
  {
    MergeStep(a, b, tolerance, i, j);
    hide Merge;
  }

  /** The vectors after the next disposition. */
  lemma UptoNext(a: seq<Stamp>, b: seq<Stamp>, tolerance: nat, i: nat, j: nat,
                 pairs: seq<FramePair>, alone0: seq<nat>, alone1: seq<nat>)
    requires Upto(a, b, tolerance, i, j, pairs, alone0, alone1) && (i < |a| || j < |b|)
    ensures match Head(a, b, tolerance, i, j)
            case Together(_, _) =>
              Upto(a, b, tolerance, i + 1, j + 1,
                   pairs + [FramePair(|pairs|, a[i], b[j], i, j, Difference(b[j], a[i]))], alone0, alone1)
            case Alone0(_) => Upto(a, b, tolerance, i + 1, j, pairs, alone0 + [i], alone1)
            case Alone1(_) => Upto(a, b, tolerance, i, j + 1, pairs, alone0, alone1 + [j])
  {
    hide PairsFrom, Singles0From, Singles1From;
    Dispose(a, b, tolerance, i, j, |pairs|);
    var d := Head(a, b, tolerance, i, j);
    var i', j' := i + Step0(d), j + Step1(d);
    match d
    case Together(_, _) =>
      Append(pairs, FramePair(|pairs|, a[i], b[j], i, j, Difference(b[j], a[i])),
             PairsFrom(a, b, tolerance, i', j', |pairs| + 1));
    case Alone0(_) => Append(alone0, i, Singles0From(a, b, tolerance, i', j'));
    case Alone1(_) => Append(alone1, j, Singles1From(a, b, tolerance, i', j'));
  }

  lemma Append<T>(done: seq<T>, e: T, rest: seq<T>)
    ensures done + ([e] + rest) == done + [e] + rest
  {
  }

  /** A pair is of two frames of the streams, within the tolerance, and says so. */
  ghost predicate PairOk(a: seq<Stamp>, b: seq<Stamp>, tolerance: nat, id: nat, p: FramePair) {
    && p.pairId == id && p.index0 < |a| && p.index1 < |b|
    && p.stamp0 == a[p.index0] && p.stamp1 == b[p.index1] && p.skew == p.stamp1 - p.stamp0
    && InReach(p.stamp0, p.stamp1, tolerance)
  }

  /** Every frame from `from` on is in one list or the other, and not in both. */
  ghost predicate Splits(from: nat, to: nat, alone: seq<nat>, used: set<nat>) {
    && (forall k | k in alone :: from <= k < to && k !in used)
    && (forall k: nat | from <= k < to :: k in alone || k in used)
    && forall k, l | 0 <= k < l < |alone| :: alone[k] < alone[l]
  }

  function Used0(pairs: seq<FramePair>): set<nat> {
    set p | p in pairs :: p.index0
  }

  function Used1(pairs: seq<FramePair>): set<nat> {
    set p | p in pairs :: p.index1
  }

  /** What the result lists say: pairs numbered from `n` in stream order, and of each
      stream the frames in no pair, in order. */
  ghost predicate ListsOk(a: seq<Stamp>, b: seq<Stamp>, tolerance: nat, i: nat, j: nat, n: nat,
                          pairs: seq<FramePair>, alone0: seq<nat>, alone1: seq<nat>) {
    && (forall k: nat | k < |pairs| ::
          PairOk(a, b, tolerance, n + k, pairs[k]) && i <= pairs[k].index0 && j <= pairs[k].index1)
    && (forall k, l | 0 <= k < l < |pairs| ::
          pairs[k].index0 < pairs[l].index0 && pairs[k].index1 < pairs[l].index1)
    && Splits(i, |a|, alone0, Used0(pairs)) && Splits(j, |b|, alone1, Used1(pairs))
  }

  lemma {:induction false} ListsRight(a: seq<Stamp>, b: seq<Stamp>, tolerance: nat, i: nat, j: nat, n: nat)
    requires i <= |a| && j <= |b|
    ensures ListsOk(a, b, tolerance, i, j, n, PairsFrom(a, b, tolerance, i, j, n),
                    Singles0From(a, b, tolerance, i, j), Singles1From(a, b, tolerance, i, j))
    decreases |a| - i + |b| - j
  {
    if i < |a| || j < |b| {
      var d := Head(a, b, tolerance, i, j);
      var m := if d.Together? then n + 1 else n;
      Dispose(a, b, tolerance, i, j, n);
      hide PairsFrom, Singles0From, Singles1From, ListsOk;
      ListsRight(a, b, tolerance, i + Step0(d), j + Step1(d), m);
      var pairs := PairsFrom(a, b, tolerance, i + Step0(d), j + Step1(d), m);
      var alone0 := Singles0From(a, b, tolerance, i + Step0(d), j + Step1(d));
      var alone1 := Singles1From(a, b, tolerance, i + Step0(d), j + Step1(d));
      match d
      case Together(_, _) => MorePairs(a, b, tolerance, i, j, n, pairs, alone0, alone1);
      case Alone0(_) => MoreAlone0(a, b, tolerance, i, j, n, pairs, alone0, alone1);
      case Alone1(_) => MoreAlone1(a, b, tolerance, i, j, n, pairs, alone0, alone1);
    } else {
      MergeOver(a, b, tolerance);
      hide Merge;
    }
  }

  lemma MoreAlone(from: nat, to: nat, alone: seq<nat>, used: set<nat>)
    requires from < to && Splits(from + 1, to, alone, used) && from !in used
    ensures Splits(from, to, [from] + alone, used)
  {
    var all := [from] + alone;
    forall k | k in all ensures from <= k < to && k !in used {
      if k != from { assert k in alone; }
    }
    assert forall k | 0 < k < |all| :: all[k] == alone[k - 1] && all[k] in alone;
    forall k: nat | from <= k < to ensures k in all || k in used {
      if k == from { assert all[0] == k; } else if k in alone { assert k in all; }
    }
  }

  lemma MoreAlone0(a: seq<Stamp>, b: seq<Stamp>, tolerance: nat, i: nat, j: nat, n: nat,
                   pairs: seq<FramePair>, alone0: seq<nat>, alone1: seq<nat>)
    requires i < |a| && j <= |b| && ListsOk(a, b, tolerance, i + 1, j, n, pairs, alone0, alone1)
    ensures ListsOk(a, b, tolerance, i, j, n, pairs, [i] + alone0, alone1)
  {
    hide Splits;
    MoreAlone(i, |a|, alone0, Used0(pairs));
  }

  lemma MoreAlone1(a: seq<Stamp>, b: seq<Stamp>, tolerance: nat, i: nat, j: nat, n: nat,
                   pairs: seq<FramePair>, alone0: seq<nat>, alone1: seq<nat>)
    requires i <= |a| && j < |b| && ListsOk(a, b, tolerance, i, j + 1, n, pairs, alone0, alone1)
    ensures ListsOk(a, b, tolerance, i, j, n, pairs, alone0, [j] + alone1)
  {
    hide Splits;
    MoreAlone(j, |b|, alone1, Used1(pairs));
  }

  lemma MorePairs(a: seq<Stamp>, b: seq<Stamp>, tolerance: nat, i: nat, j: nat, n: nat,
                  pairs: seq<FramePair>, alone0: seq<nat>, alone1: seq<nat>)
    requires i < |a| && j < |b| && Close(a[i], b[j], tolerance)
    requires ListsOk(a, b, tolerance, i + 1, j + 1, n + 1, pairs, alone0, alone1)
    ensures ListsOk(a, b, tolerance, i, j, n,
                    [FramePair(n, a[i], b[j], i, j, Difference(b[j], a[i]))] + pairs, alone0, alone1)
  {
    var p := FramePair(n, a[i], b[j], i, j, Difference(b[j], a[i]));
    var all := [p] + pairs;
    assert Used0(all) == Used0(pairs) + {i} by { assert all[0] == p; UsedMore(p, pairs); }
    assert Used1(all) == Used1(pairs) + {j} by { UsedMore(p, pairs); }
    assert forall k: nat | 0 < k < |all| :: all[k] == pairs[k - 1];
  }

  lemma UsedMore(p: FramePair, pairs: seq<FramePair>)
    ensures Used0([p] + pairs) == Used0(pairs) + {p.index0} && Used1([p] + pairs) == Used1(pairs) + {p.index1}
  {
    var all := [p] + pairs;
    assert p in all && forall q | q in pairs :: q in all;
  }

  /** pair_by_timestamp. */
  method PairByTimestamp(a: seq<Stamp>, b: seq<Stamp>, tolerance: nat) returns (result: PairResult)
    ensures result.pairs == PairsFrom(a, b, tolerance, 0, 0, 0)
    ensures result.unpaired0 == Singles0From(a, b, tolerance, 0, 0)
    ensures result.unpaired1 == Singles1From(a, b, tolerance, 0, 0)
    ensures result.stats.paired == |result.pairs| && IsWorstSkew(result.pairs, result.stats.maxAbsSkew)
    ensures result.stats.unpaired0 == |result.unpaired0| && result.stats.unpaired1 == |result.unpaired1|
    ensures result.stats.AccountsFor(|a|, |b|)
    ensures ListsOk(a, b, tolerance, 0, 0, 0, result.pairs, result.unpaired0, result.unpaired1)
  {
    hide ListsOk;
    var pairs: seq<FramePair>, unpaired0: seq<nat>, unpaired1: seq<nat> := [], [], [];
    var paired, alone0, alone1, worst := 0, 0, 0, 0;
    var i, j := 0, 0;
    UptoStart(a, b, tolerance);
    hide Upto;

    while i < |a| && j < |b|
      invariant i <= |a| && j <= |b| && Upto(a, b, tolerance, i, j, pairs, unpaired0, unpaired1)
      invariant paired == |pairs| && alone0 == |unpaired0| && alone1 == |unpaired1|
      invariant IsWorstSkew(pairs, worst)
      decreases |a| - i + |b| - j
    {
      UptoNext(a, b, tolerance, i, j, pairs, unpaired0, unpaired1);
      var d := Difference(a[i], b[j]);
      var distance := if d < 0 then -d else d;
      if distance <= tolerance {
        var pair := FramePair(paired, a[i], b[j], i, j, -d);
        var absSkew := if pair.skew < 0 then -pair.skew else pair.skew;
        WorstGrows(pairs, worst, pair);
        if absSkew > worst { worst := absSkew; }
        pairs := pairs + [pair];
        paired := paired + 1;
        i := i + 1;
        j := j + 1;
      } else if d < 0 {
        unpaired0 := unpaired0 + [i];
        alone0 := alone0 + 1;
        i := i + 1;
      } else {
        unpaired1 := unpaired1 + [j];
        alone1 := alone1 + 1;
        j := j + 1;
      }
    }

    while i < |a|
      invariant i <= |a| && j <= |b| && (i < |a| ==> j == |b|)
      invariant Upto(a, b, tolerance, i, j, pairs, unpaired0, unpaired1) && alone0 == |unpaired0|
    {
      UptoNext(a, b, tolerance, i, j, pairs, unpaired0, unpaired1);
      unpaired0 := unpaired0 + [i];
      alone0 := alone0 + 1;
      i := i + 1;
    }
    while j < |b|
      invariant i == |a| && j <= |b|
      invariant Upto(a, b, tolerance, i, j, pairs, unpaired0, unpaired1) && alone1 == |unpaired1|
    {
      UptoNext(a, b, tolerance, i, j, pairs, unpaired0, unpaired1);
      unpaired1 := unpaired1 + [j];
      alone1 := alone1 + 1;
      j := j + 1;
    }
    UptoEnd(a, b, tolerance, pairs, unpaired0, unpaired1);
    ListsRight(a, b, tolerance, 0, 0, 0);
    result := PairResult(pairs, unpaired0, unpaired1, PairStats(paired, alone0, alone1, worst));
  }

  lemma WorstGrows(pairs: seq<FramePair>, worst: nat, pair: FramePair)
    requires IsWorstSkew(pairs, worst)
    ensures IsWorstSkew(pairs + [pair], if Abs(pair.skew) > worst then Abs(pair.skew) else worst)
  {
    assert pair in pairs + [pair];
    assert forall p :: p in pairs ==> p in pairs + [pair];
  }

  /** The first stamp smaller than its predecessor, or the length if there is none. */
  method FirstTimestampRegression(stamps: seq<Stamp>) returns (at: nat)
    ensures at <= |stamps| && Sorted(stamps[..at])
    ensures at < |stamps| ==> 0 < at && stamps[at] < stamps[at - 1]
    ensures at == |stamps| <==> Sorted(stamps)
  {
    var i := 1;
    while i < |stamps|
      invariant 1 <= i && (i <= |stamps| ==> Sorted(stamps[..i]))
      invariant i > |stamps| ==> stamps == []
    {
      if stamps[i] < stamps[i - 1] {
        return i;
      }
      assert stamps[..i + 1][..i] == stamps[..i];
      i := i + 1;
    }
    assert stamps[..|stamps|] == stamps;
    return |stamps|;
  }

  ghost predicate Sorted(s: seq<Stamp>) {
    forall i, j | 0 <= i < j < |s| :: s[i] <= s[j]
  }

  // ------------------------------------------------------ every frame, once

  function Range(from: nat, to: nat): seq<nat>
    requires from <= to
  {
    seq(to - from, k requires 0 <= k => from + k)
  }

  lemma RangeStep(from: nat, to: nat)
    requires from <= to
    ensures Range(from, to) == if from == to then [] else [from] + Range(from + 1, to)
  {
  }

  /** The merge disposes of every frame of either stream exactly once, in order. */
  lemma {:induction false} EachFrameOnce(a: seq<Stamp>, b: seq<Stamp>, tolerance: nat, i: nat, j: nat)
    requires i <= |a| && j <= |b|
    ensures Order0(Merge(a, b, tolerance, i, j)) == Range(i, |a|)
    ensures Order1(Merge(a, b, tolerance, i, j)) == Range(j, |b|)
    decreases |a| - i + |b| - j
  {
    hide Merge, Range, Decide;
    RangeStep(i, |a|);
    RangeStep(j, |b|);
    if i < |a| || j < |b| {
      var d := Head(a, b, tolerance, i, j);
      EachFrameOnce(a, b, tolerance, i + Step0(d), j + Step1(d));
      MergeStep(a, b, tolerance, i, j);
    } else {
      MergeOver(a, b, tolerance);
    }
  }

  // ------------------------------------------------------- a maximum matching

  /** A way of pairing frames from `i` and `j` on: within the tolerance, and no
      frame twice. */
  ghost predicate IsMatching(a: seq<Stamp>, b: seq<Stamp>, tolerance: nat, i: nat, j: nat, m: set<(nat, nat)>) {
    && (forall e | e in m :: i <= e.0 < |a| && j <= e.1 < |b| && InReach(a[e.0], b[e.1], tolerance))
    && (forall e, f | e in m && f in m && e != f :: e.0 != f.0 && e.1 != f.1)
  }

  /** The index pairs a merge makes. */
  function Matched(ds: seq<Disposition>): set<(nat, nat)> {
    if ds == [] then {}
    else if ds[0].Together? then {(ds[0].i, ds[0].j)} + Matched(ds[1..])
    else Matched(ds[1..])
  }

  lemma {:induction false} MergeIsMatching(a: seq<Stamp>, b: seq<Stamp>, tolerance: nat, i: nat, j: nat)
    requires i <= |a| && j <= |b|
    ensures IsMatching(a, b, tolerance, i, j, Matched(Merge(a, b, tolerance, i, j)))
    decreases |a| - i + |b| - j
  {
    hide Merge;
    if i < |a| || j < |b| {
      var d := Head(a, b, tolerance, i, j);
      MergeIsMatching(a, b, tolerance, i + Step0(d), j + Step1(d));
      MergeStep(a, b, tolerance, i, j);
    } else {
      MergeOver(a, b, tolerance);
    }
  }

  /** The exchange: a matching that uses the two heads `i` and `j` for partners
      `e1` and `f0` can give those partners to each other instead. */
  lemma Swap(a: seq<Stamp>, b: seq<Stamp>, tolerance: nat, i: nat, j: nat, m: set<(nat, nat)>, e1: nat, f0: nat)
    returns (rest: set<(nat, nat)>)
    requires Sorted(a) && Sorted(b) && i < |a| && j < |b|
    requires IsMatching(a, b, tolerance, i, j, m) && (i, e1) in m && (f0, j) in m && (i, e1) != (f0, j)
    ensures IsMatching(a, b, tolerance, i + 1, j + 1, rest) && |m| <= |rest| + 1
  {
    var untouched := m - {(i, e1), (f0, j)};
    RemoveTwo(m, (i, e1), (f0, j));
    assert f0 != i && e1 != j;
    assert a[i] <= a[f0] && b[j] <= b[e1];
    forall g | g in untouched
      ensures g.0 != i && g.0 != f0 && g.1 != e1 && g.1 != j
    {
      assert g in m && g != (i, e1) && g != (f0, j);
    }
    rest := untouched + {(f0, e1)};
    assert (f0, e1) !in untouched;
  }

  lemma RemoveTwo<T>(m: set<T>, e: T, f: T)
    requires e in m && f in m && e != f
    ensures |m| == |m - {e, f}| + 2
  {
    assert m == (m - {e, f}) + {e} + {f};
  }

  lemma Exchange(a: seq<Stamp>, b: seq<Stamp>, tolerance: nat, i: nat, j: nat, m: set<(nat, nat)>)
    returns (rest: set<(nat, nat)>)
    requires Sorted(a) && Sorted(b) && i < |a| && j < |b|
    requires IsMatching(a, b, tolerance, i, j, m)
    ensures IsMatching(a, b, tolerance, i + 1, j + 1, rest) && |m| <= |rest| + 1
  {
    if e1: nat, f0: nat :| (i, e1) in m && (f0, j) in m && (i, e1) != (f0, j) {
      rest := Swap(a, b, tolerance, i, j, m, e1, f0);
    } else if x :| x in m && (x.0 == i || x.1 == j) {
      rest := m - {x};
      assert m == rest + {x};
      forall g | g in rest ensures g.0 != i && g.1 != j {
        assert g == (g.0, g.1) && x == (x.0, x.1) && g != x && g in m;
      }
    } else {
      rest := m;
    }
  }

  /** A head that is too old for everything the other side has left is in no
      matching. */
  lemma StaleHead(a: seq<Stamp>, b: seq<Stamp>, tolerance: nat, i: nat, j: nat, m: set<(nat, nat)>)
    requires Sorted(a) && Sorted(b) && i <= |a| && j <= |b|
    requires IsMatching(a, b, tolerance, i, j, m) && (i < |a| || j < |b|)
    ensures var d := Head(a, b, tolerance, i, j);
            !d.Together? ==> IsMatching(a, b, tolerance, i + Step0(d), j + Step1(d), m)
  {
    forall e | e in m
      ensures i < |a| && j < |b| && a[i] <= a[e.0] && b[j] <= b[e.1]
    {
    }
  }

  lemma NoneLeft(a: seq<Stamp>, b: seq<Stamp>, tolerance: nat, m: set<(nat, nat)>)
    requires IsMatching(a, b, tolerance, |a|, |b|, m)
    ensures m == {}
  {
  }

  lemma OneMore(a: seq<Stamp>, b: seq<Stamp>, tolerance: nat, i: nat, j: nat)
    requires i < |a| && j < |b| && Close(a[i], b[j], tolerance)
    ensures |Matched(Merge(a, b, tolerance, i, j))| == |Matched(Merge(a, b, tolerance, i + 1, j + 1))| + 1
  {
    MergeIsMatching(a, b, tolerance, i + 1, j + 1);
    var rest := Matched(Merge(a, b, tolerance, i + 1, j + 1));
    assert (i, j) !in rest;
    MergeStep(a, b, tolerance, i, j);
    hide Merge, IsMatching;
    assert Matched(Merge(a, b, tolerance, i, j)) == {(i, j)} + rest;
  }

  /** No matching beats the merge. */
  lemma {:induction false} MergeIsMaximum(a: seq<Stamp>, b: seq<Stamp>, tolerance: nat, i: nat, j: nat,
                                          m: set<(nat, nat)>)
    requires Sorted(a) && Sorted(b) && i <= |a| && j <= |b|
    requires IsMatching(a, b, tolerance, i, j, m)
    ensures |m| <= |Matched(Merge(a, b, tolerance, i, j))|
    decreases |a| - i + |b| - j
  {
    hide IsMatching, Sorted, Merge;
    if i == |a| && j == |b| {
      NoneLeft(a, b, tolerance, m);
    } else {
      var d := Head(a, b, tolerance, i, j);
      MergeStep(a, b, tolerance, i, j);
      if d.Together? {
        var rest := Exchange(a, b, tolerance, i, j, m);
        MergeIsMaximum(a, b, tolerance, i + 1, j + 1, rest);
        OneMore(a, b, tolerance, i, j);
      } else {
        StaleHead(a, b, tolerance, i, j, m);
        MergeIsMaximum(a, b, tolerance, i + Step0(d), j + Step1(d), m);
      }
    }
  }

  /** How many pairs a list of dispositions makes. */
  function Togethers(ds: seq<Disposition>): nat {
    if ds == [] then 0 else (if ds[0].Together? then 1 else 0) + Togethers(ds[1..])
  }

  function IndexPairs(pairs: seq<FramePair>): set<(nat, nat)> {
    set p | p in pairs :: (p.index0, p.index1)
  }

  lemma {:induction false} PairsAreMatched(a: seq<Stamp>, b: seq<Stamp>, ds: seq<Disposition>, n: nat)
    requires Within(ds, |a|, |b|)
    ensures IndexPairs(PairsIn(a, b, ds, n)) == Matched(ds) && |PairsIn(a, b, ds, n)| == Togethers(ds)
  {
    if ds != [] {
      if ds[0].Together? {
        PairsAreMatched(a, b, ds[1..], n + 1);
        var rest := PairsIn(a, b, ds[1..], n + 1);
        var all := PairsIn(a, b, ds, n);
        assert all == [all[0]] + rest;
        assert IndexPairs(all) == {(ds[0].i, ds[0].j)} + IndexPairs(rest);
      } else {
        PairsAreMatched(a, b, ds[1..], n);
      }
    }
  }

  lemma {:induction false} MatchedCount(a: seq<Stamp>, b: seq<Stamp>, tolerance: nat, i: nat, j: nat)
    requires i <= |a| && j <= |b|
    ensures |Matched(Merge(a, b, tolerance, i, j))| == Togethers(Merge(a, b, tolerance, i, j))
    decreases |a| - i + |b| - j
  {
    hide Merge, Decide;
    if i == |a| && j == |b| {
      MergeOver(a, b, tolerance);
    } else {
      var d := Head(a, b, tolerance, i, j);
      MergeStep(a, b, tolerance, i, j);
      MatchedCount(a, b, tolerance, i + Step0(d), j + Step1(d));
      if d.Together? { OneMore(a, b, tolerance, i, j); }
    }
  }

  /** For non-decreasing streams the merge is a maximum matching: its pairs are
      within the tolerance and use no frame twice, and no set of such pairs is
      larger. */
  lemma MaximumMatching(a: seq<Stamp>, b: seq<Stamp>, tolerance: nat, m: set<(nat, nat)>)
    requires Sorted(a) && Sorted(b) && IsMatching(a, b, tolerance, 0, 0, m)
    ensures var pairs := PairsFrom(a, b, tolerance, 0, 0, 0);
            && IsMatching(a, b, tolerance, 0, 0, IndexPairs(pairs))
            && |m| <= |IndexPairs(pairs)| == |pairs|
  {
    MergeWithin(a, b, tolerance, 0, 0);
    MergeIsMatching(a, b, tolerance, 0, 0);
    MergeIsMaximum(a, b, tolerance, 0, 0, m);
    PairsAreMatched(a, b, Merge(a, b, tolerance, 0, 0), 0);
    MatchedCount(a, b, tolerance, 0, 0);
  }

  // ------------------------------------------------ tolerance under half a period

  /** Consecutive stamps are further apart than twice the tolerance. */
  ghost predicate Spaced(s: seq<Stamp>, tolerance: nat) {
    forall k | 0 < k < |s| :: s[k] - s[k - 1] > 2 * tolerance
  }

  lemma {:induction false} SpacedApart(s: seq<Stamp>, tolerance: nat, i: nat, j: nat)
    requires Spaced(s, tolerance) && i < j < |s|
    ensures s[j] - s[i] > 2 * tolerance
    decreases j - i
  {
    assert s[j] - s[j - 1] > 2 * tolerance;
    if i < j - 1 { SpacedApart(s, tolerance, i, j - 1); }
  }

  /** All pairs of frames within the tolerance of each other. */
  function ClosePairs(a: seq<Stamp>, b: seq<Stamp>, tolerance: nat): set<(nat, nat)> {
    set i: nat, j: nat | i < |a| && j < |b| && InReach(a[i], b[j], tolerance) :: (i, j)
  }

  /** With the tolerance under half the frame period, as its documentation asks,
      the merge finds exactly the pairs of frames that are within the tolerance:
      nothing is left to how it went about it. */
  lemma SpacedMergeFindsAll(a: seq<Stamp>, b: seq<Stamp>, tolerance: nat)
    requires Spaced(a, tolerance) && Spaced(b, tolerance)
    ensures IndexPairs(PairsFrom(a, b, tolerance, 0, 0, 0)) == ClosePairs(a, b, tolerance)
  {
    forall i, j | 0 <= i < j < |a| ensures a[i] <= a[j] { SpacedApart(a, tolerance, i, j); }
    forall i, j | 0 <= i < j < |b| ensures b[i] <= b[j] { SpacedApart(b, tolerance, i, j); }
    var all := ClosePairs(a, b, tolerance);
    forall e, f | e in all && f in all && e != f
      ensures e.0 != f.0 && e.1 != f.1
    {
      OnePartner(a, b, tolerance, e, f);
    }
    MaximumMatching(a, b, tolerance, all);
    var found := IndexPairs(PairsFrom(a, b, tolerance, 0, 0, 0));
    assert found <= all;
    SubsetFills(found, all);
  }

  lemma OnePartner(a: seq<Stamp>, b: seq<Stamp>, tolerance: nat, e: (nat, nat), f: (nat, nat))
    requires Spaced(a, tolerance) && Spaced(b, tolerance) && e != f
    requires e in ClosePairs(a, b, tolerance) && f in ClosePairs(a, b, tolerance)
    ensures e.0 != f.0 && e.1 != f.1
  {
    if e.0 == f.0 {
      if e.1 < f.1 { SpacedApart(b, tolerance, e.1, f.1); } else { SpacedApart(b, tolerance, f.1, e.1); }
    } else if e.1 == f.1 {
      if e.0 < f.0 { SpacedApart(a, tolerance, e.0, f.0); } else { SpacedApart(a, tolerance, f.0, e.0); }
    }
  }

  lemma SubsetFills<T>(x: set<T>, y: set<T>)
    requires x <= y && |y| <= |x|
    ensures x == y
  {
    assert |y| == |x| + |y - x| by { assert y == x + (y - x); }
    assert y - x == {};
  }
}
