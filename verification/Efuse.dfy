// The I-squared-t fuse of one bridge, over the reals: heat is measured in
// seconds at rated current.

module Efuse {

  datatype Params = Params(heatThresh: real, kInst: real, tauCool: real, tCool: nat, inrushUs: nat)

  // tripTime is the time of the latest trip condition.
  datatype Fuse = Fuse(heat: real, tripped: bool, tripTime: int)

  // One sample: the normalised current, the clock, when the bridge went on and
  // whether any active bridge is in its inrush window.
  datatype Sample = Sample(iNorm: real, now: int, onUs: int, inrush: bool)

  function Max0(x: real): real { if x < 0.0 then 0.0 else x }

  /** x times UPDATE_S, the seconds between two samples. */
  function PerUpdate(x: real): real { x * 0.02 }

  const UPDATE_S: real := 0.02

  /** The heat one sample adds: I squared t. */
  function Gain(iNorm: real): real { PerUpdate(iNorm * iNorm) }

  /** The heat left after one sample's cooling. */
  function Cooled(heat: real, tauCool: real): real { Max0(heat - PerUpdate(heat * tauCool)) }

  predicate InstantTrip(s: Sample, p: Params) {
    s.now > s.onUs + p.inrushUs && s.iNorm >= p.kInst && !s.inrush
  }

  /** Heat after one sample; cooling only below rated current. */
  function Heated(h: real, iNorm: real, p: Params): real {
    if iNorm < 1.0 then Cooled(h + Gain(iNorm), p.tauCool) else h + Gain(iNorm)
  }

  function Step(f: Fuse, s: Sample, p: Params): Fuse {
    if InstantTrip(s, p) then f.(tripped := true, tripTime := s.now)
    else
      var h := Heated(f.heat, s.iNorm, p);
      if h > p.heatThresh then Fuse(h, true, s.now)
      else if f.tripped && s.now - f.tripTime > p.tCool then Fuse(h, false, f.tripTime)
      else Fuse(h, f.tripped, f.tripTime)
  }

  class Channel {
    var heat: real
    var tripped: bool
    var tripTime: int
    var onUs: int

    ghost function Contents(): Fuse
      reads this
    {
      Fuse(heat, tripped, tripTime)
    }

    /** The fuse half of processing one current sample. */
    method Process(current: real, iNominal: real, now: int, inrush: bool, p: Params)
      requires iNominal > 0.0
      modifies this`heat, this`tripped, this`tripTime
      ensures var q := current / iNominal;
              Contents() == Step(old(Contents()), Sample(if q < 0.0 then -q else q, now, onUs, inrush), p)
    {
      var q := current / iNominal;
      var iNorm := if q < 0.0 then -q else q;
      if now > onUs + p.inrushUs && iNorm >= p.kInst && !inrush {
        tripped := true;
        tripTime := now;
        return;
      }
      heat := heat + Gain(iNorm);
      if iNorm < 1.0 {
        heat := Cooled(heat, p.tauCool);
      }
      if heat > p.heatThresh {
        tripped := true;
        tripTime := now;
      } else if tripped && now - tripTime > p.tCool {
        tripped := false;
      }
    }
  }

  /** The fuse after the samples ss. */
  function After(f: Fuse, ss: seq<Sample>, p: Params): Fuse
    decreases ss
  {
    if ss == [] then f else Step(After(f, ss[..|ss| - 1], p), ss[|ss| - 1], p)
  }

  // ---- Rated current -----------------------------------------------------------------

  /** Currents below m times the nominal one. */
  ghost predicate Below(ss: seq<Sample>, m: real) {
    forall n :: 0 <= n < |ss| ==> 0.0 <= ss[n].iNorm < m
  }

  lemma ScaleUp(a: real, b: real, c: real)
    requires a <= b && c >= 0.0
    ensures a * c <= b * c
  {
  }

  lemma StrictScale(a: real, b: real, c: real)
    requires a < b && c > 0.0
    ensures a * c < b * c
  {
  }

  lemma GainBounded(x: real, m: real)
    requires 0.0 <= x < m
    ensures 0.0 <= Gain(x) < PerUpdate(m * m)
  {
    ScaleUp(0.0, x, x);
    var d := ProductOf(m - x, m + x);
    DifferenceOfSquares(m, x);
    PerUpdateMonotone(x * x, m * m);
  }

  lemma DifferenceOfSquares(a: real, b: real)
    ensures (a - b) * (a + b) == a * a - b * b
  {
  }

  lemma PerUpdateMonotone(a: real, b: real)
    requires 0.0 <= a < b
    ensures 0.0 <= PerUpdate(a) < PerUpdate(b)
  {
  }

  lemma Reciprocal(t: real)
    requires t > 0.0
    ensures 1.0 / t * t == 1.0 && 1.0 / t > 0.0
  {
  }

  /** The heat a current just below rated settles at; m times that current
      settles at m * m times that heat. */
  function RatedHeat(p: Params): real
    requires p.tauCool > 0.0
  {
    Max0(1.0 / p.tauCool - UPDATE_S)
  }

  lemma Factor(g: real, t: real)
    ensures g - PerUpdate(g * t) == g * (1.0 - PerUpdate(t))
  {
  }

  lemma CoolingMonotone(g: real, top: real, t: real)
    requires 0.0 <= g <= top && t > 0.0
    ensures g - PerUpdate(g * t) <= Max0(top - PerUpdate(top * t))
  {
    var k := 1.0 - PerUpdate(t);
    Factor(g, t);
    Factor(top, t);
    if k > 0.0 {
      ScaleUp(g, top, k);
    } else {
      ScaleUp(0.0, g, -k);
    }
  }

  lemma Spread(q: real, c: real, t: real)
    requires t > 0.0
    ensures (q * c + PerUpdate(q)) * t == q * ((c + UPDATE_S) * t)
  {
  }

  /** One cooling step from at most b plus the heat of q ends at most at b. */
  lemma CoolingBounded(g: real, t: real, b: real, q: real)
    requires t > 0.0 && b >= 0.0 && q >= 0.0 && 0.0 <= g <= b + PerUpdate(q)
    requires q * (1.0 / t - UPDATE_S) <= b
    ensures 0.0 <= Cooled(g, t) <= b
  {
    var c := 1.0 / t - UPDATE_S;
    var top := b + PerUpdate(q);
    CoolingMonotone(g, top, t);
    Reciprocal(t);
    Spread(q, c, t);
    ScaleUp(q * c + PerUpdate(q), top, t);
  }

  lemma ScaledMax(q: real, c: real, b: real)
    requires q >= 0.0 && q * Max0(c) <= b
    ensures q * c <= b && 0.0 <= b
  {
    ScaleUp(0.0, Max0(c), q);
    ScaleUp(c, Max0(c), q);
  }

  /** Below m times rated current, heat that is at most b (any bound at or above
      what that settles at) stays so. */
  lemma HeatedBounded(h: real, x: real, p: Params, m: real, b: real)
    requires p.tauCool > 0.0 && 0.0 <= x < m <= 1.0
    requires 0.0 <= h <= b && m * m * RatedHeat(p) <= b
    ensures 0.0 <= Heated(h, x, p) <= b
  {
    GainBounded(x, m);
    ScaleUp(0.0, m, m);
    ScaledMax(m * m, 1.0 / p.tauCool - UPDATE_S, b);
    CoolingBounded(h + Gain(x), p.tauCool, b, m * m);
  }

  lemma {:induction false} RatedRun(f: Fuse, ss: seq<Sample>, p: Params, m: real, b: real)
    requires p.tauCool > 0.0 && 0.0 < m <= 1.0 && Below(ss, m)
    requires 0.0 <= f.heat <= b && m * m * RatedHeat(p) <= b
    ensures 0.0 <= After(f, ss, p).heat <= b
    decreases |ss|
  {
    if ss != [] {
      var last := |ss| - 1;
      RatedRun(f, ss[..last], p, m, b);
      HeatedBounded(After(f, ss[..last], p).heat, ss[last].iNorm, p, m, b);
    }
  }

  /** The thermal bound: starting at or below 1/TAUCOOL, a current below rated
      never heats the fuse past 1/TAUCOOL. */
  lemma ThermalBound(f: Fuse, ss: seq<Sample>, p: Params)
    requires p.tauCool > 0.0 && Below(ss, 1.0) && 0.0 <= f.heat <= 1.0 / p.tauCool
    ensures 0.0 <= After(f, ss, p).heat <= 1.0 / p.tauCool
  {
    Reciprocal(p.tauCool);
    RatedRun(f, ss, p, 1.0, 1.0 / p.tauCool);
  }

  const COLD: Fuse := Fuse(0.0, false, 0)

  /** The instant path stays quiet. */
  ghost predicate NoInstant(ss: seq<Sample>, p: Params) {
    forall n :: 0 <= n < |ss| ==> !InstantTrip(ss[n], p)
  }

  /** Any fuse that is not tripped stays so below m times rated current, when
      the threshold is at or above its heat and what that current settles at. */
  lemma {:induction false} RatedNeverTrips(f: Fuse, ss: seq<Sample>, p: Params, m: real)
    requires p.tauCool > 0.0 && 0.0 < m <= 1.0 && Below(ss, m) && NoInstant(ss, p)
    requires !f.tripped && 0.0 <= f.heat <= p.heatThresh && m * m * RatedHeat(p) <= p.heatThresh
    ensures !After(f, ss, p).tripped
    decreases |ss|
  {
    if ss != [] {
      RatedNeverTrips(f, ss[..|ss| - 1], p, m);
      RatedRun(f, ss, p, m, p.heatThresh);
    }
  }

  const TICK_US: int := 20_000

  /** Samples as the tick takes them while a bridge stays on: every 20 ms, past
      its inrush time and with no other bridge in its own. */
  ghost predicate Settled(ss: seq<Sample>, p: Params) {
    forall n :: 0 <= n < |ss| ==>
      && ss[n].onUs == ss[0].onUs && ss[n].now == ss[0].now + TICK_US * n
      && ss[n].now > ss[n].onUs + p.inrushUs && !ss[n].inrush
  }

  /** n such samples of the same current. */
  function Steady(x: real, n: nat, p: Params): (ss: seq<Sample>)
    ensures |ss| == n
    ensures Settled(ss, p)
  {
    seq(n, i => Sample(x, p.inrushUs + TICK_US * (i + 1), 0, false))
  }

  lemma SteadyStep(f: Fuse, x: real, n: nat, p: Params)
    ensures After(f, Steady(x, n + 1, p), p) == Step(After(f, Steady(x, n, p), p), Steady(x, n + 1, p)[n], p)
  {
    assert Steady(x, n + 1, p)[..n] == Steady(x, n, p);
  }

  /** At heat h at most T, a steady current whose settling heat exceeds T gains
      at least d. */
  lemma SteadyGains(h: real, g: real, t: real, c: real, T: real, d: real)
    requires 0.0 <= h <= T && g >= 0.0 && t > 0.0
    requires c == g - PerUpdate(g * t) && d == c - PerUpdate(T * t)
    ensures Cooled(h + g, t) >= h + d
  {
    ScaleUp(h, T, t);
    assert (h + g) * t == h * t + g * t;
  }

  lemma OneMore(n: nat, d: real)
    requires n > 0
    ensures n as real * d == (n - 1) as real * d + d
  {
  }

  /** d is the least a steady current x heats the fuse by in one sample. */
  predicate Climbs(x: real, d: real, p: Params) {
    d == Gain(x) - PerUpdate(Gain(x) * p.tauCool) - PerUpdate(p.heatThresh * p.tauCool)
  }

  lemma ClimbOnce(f: Fuse, s: Sample, p: Params, d: real)
    requires p.tauCool > 0.0 && 0.0 <= s.iNorm < 1.0 && Climbs(s.iNorm, d, p) && !InstantTrip(s, p)
    requires 0.0 <= f.heat <= p.heatThresh && !Step(f, s, p).tripped
    ensures f.heat + d <= Step(f, s, p).heat <= p.heatThresh
    ensures 0.0 <= Step(f, s, p).heat
  {
    var x := s.iNorm;
    GainBounded(x, 1.0);
    SteadyGains(f.heat, Gain(x), p.tauCool, Gain(x) - PerUpdate(Gain(x) * p.tauCool), p.heatThresh, d);
  }

  lemma {:induction false} LinearGrowth(h: nat -> real, n: nat, d: real)
    requires forall i: nat :: i < n ==> h(i) + d <= h(i + 1)
    ensures h(0) + n as real * d <= h(n)
  {
    if n > 0 {
      LinearGrowth(h, n - 1, d);
      OneMore(n, d);
    }
  }

  lemma SteadyInRange(x: real, n: nat, p: Params)
    requires p.heatThresh >= 0.0 && 0.0 <= x < 1.0 && x < p.kInst && !After(COLD, Steady(x, n, p), p).tripped
    ensures 0.0 <= After(COLD, Steady(x, n, p), p).heat <= p.heatThresh
  {
    if n > 0 {
      SteadyStep(COLD, x, n - 1, p);
    }
  }

  lemma {:induction false} SteadyClimbs(x: real, n: nat, p: Params, d: real)
    requires p.tauCool > 0.0 && p.heatThresh >= 0.0 && 0.0 <= x < 1.0 && x < p.kInst && Climbs(x, d, p)
    requires !After(COLD, Steady(x, n, p), p).tripped && !After(COLD, Steady(x, n + 1, p), p).tripped
    ensures After(COLD, Steady(x, n, p), p).heat + d <= After(COLD, Steady(x, n + 1, p), p).heat
  {
    SteadyInRange(x, n, p);
    SteadyStep(COLD, x, n, p);
    ClimbOnce(After(COLD, Steady(x, n, p), p), Steady(x, n + 1, p)[n], p, d);
  }

  /** While it does not trip, a steady current heats a cold fuse by d a sample. */
  lemma {:induction false} UntrippedClimbs(x: real, n: nat, p: Params, d: real)
    requires p.tauCool > 0.0 && p.heatThresh >= 0.0 && 0.0 <= x < 1.0 && x < p.kInst && Climbs(x, d, p)
    requires forall k: nat :: k <= n ==> !After(COLD, Steady(x, k, p), p).tripped
    ensures n as real * d <= After(COLD, Steady(x, n, p), p).heat <= p.heatThresh
  {
    var h := (i: nat) => After(COLD, Steady(x, i, p), p).heat;
    forall i: nat | i < n
      ensures h(i) + d <= h(i + 1)
    {
      SteadyClimbs(x, i, p, d);
    }
    LinearGrowth(h, n, d);
    SteadyInRange(x, n, p);
  }

  lemma ProductOf(a: real, b: real) returns (n: real)
    requires a > 0.0 && b > 0.0
    ensures n == a * b && n > 0.0
  {
    n := a * b;
  }

  lemma Expand(a: real, b: real)
    ensures a * (a + b) == a * a + a * b
  {
  }

  lemma SquareOfComplement(x: real, y: real, r: real)
    requires x + y == 1.0 && x - y == r && y > 0.0
    ensures x * x > r
  {
    Expand(x, y);
    Expand(y, x);
    var n := ProductOf(y, y);
  }

  lemma SquareOfProduct(m: real, y: real)
    ensures (m * y) * (m * y) == (m * m) * (y * y)
  {
  }

  /** A number below m whose square is above r. */
  lemma SquareAbove(r: real, m: real) returns (x: real)
    requires 0.0 < m && 0.0 <= r < m * m
    ensures 0.0 <= x < m && x * x > r
  {
    var q := m * m;
    RatioBelowOne(r, q);
    var y := 0.5 + 0.5 * (r / q);
    SquareOfComplement(y, 1.0 - y, r / q);
    StrictScale(r / q, y * y, q);
    SquareOfProduct(m, y);
    StrictScale(y, 1.0, m);
    ScaleUp(0.0, y, m);
    x := m * y;
  }

  /** The climb per sample, factored. */
  lemma ClimbFactored(q: real, t: real, c: real, T: real)
    requires c * t == 1.0 - PerUpdate(t)
    ensures PerUpdate(q) - PerUpdate(PerUpdate(q) * t) - PerUpdate(T * t) == PerUpdate((q * c - T) * t)
  {
    assert PerUpdate(q) * t == PerUpdate(q * t);
    assert (q * c - T) * t == q * (c * t) - T * t;
    assert q * (1.0 - PerUpdate(t)) == q - PerUpdate(q * t);
  }

  lemma RatioBelowOne(a: real, c: real)
    requires 0.0 <= a < c
    ensures 0.0 <= a / c < 1.0 && a / c * c == a
  {
  }

  lemma RatioBelow(a: real, q: real, c: real)
    requires 0.0 <= a < q * c && c > 0.0
    ensures 0.0 <= a / c < q && a / c * c == a
  {
    if a / c >= q {
      ScaleUp(q, a / c, c);
    }
  }

  /** Under a threshold below what currents below m settle at, one of them heats
      the fuse by a fixed amount per sample as long as it does not trip. */
  lemma ChooseCurrent(p: Params, m: real) returns (x: real, d: real)
    requires p.tauCool > 0.0 && 0.0 < m && 0.0 <= p.heatThresh < m * m * (1.0 / p.tauCool - UPDATE_S)
    requires 1.0 / p.tauCool - UPDATE_S > 0.0
    ensures 0.0 <= x < m && d > 0.0 && Climbs(x, d, p)
  {
    var t, T := p.tauCool, p.heatThresh;
    var c := 1.0 / t - UPDATE_S;
    Reciprocal(t);
    assert c * t == 1.0 - PerUpdate(t);
    RatioBelow(T, m * m, c);
    x := SquareAbove(T / c, m);
    StrictScale(T / c, x * x, c);
    ClimbFactored(x * x, t, c, T);
    var climb := ProductOf(x * x * c - T, t);
    d := PerUpdate(climb);
  }

  /** Enough steps of a fixed amount exceed any bound. */
  lemma Archimedes(T: real, d: real) returns (n: nat)
    requires T >= 0.0 && d > 0.0
    ensures n as real * d > T
  {
    RatioCovers(T, d);
    n := (T / d).Floor + 1;
    StrictScale(T / d, n as real, d);
  }

  lemma RatioCovers(a: real, d: real)
    requires a >= 0.0 && d > 0.0
    ensures a / d >= 0.0 && a / d * d == a
  {
  }

  /** The current from which on the fuse reacts without a delay or stops
      cooling. */
  function Limit(p: Params): real { if p.kInst < 1.0 then p.kInst else 1.0 }

  lemma HotRunTrips(p: Params) returns (ss: seq<Sample>)
    requires p.tauCool > 0.0 && p.kInst > 0.0 && p.heatThresh < Limit(p) * Limit(p) * RatedHeat(p)
    ensures Nuisance(ss, p)
  {
    var m := Limit(p);
    if p.heatThresh < 0.0 {
      ss := Steady(0.0, 1, p);
      SteadyStep(COLD, 0.0, 0, p);
      return;
    }
    assert RatedHeat(p) > 0.0;
    var x, d := ChooseCurrent(p, m);
    var n := Archimedes(p.heatThresh, d);
    if forall k: nat :: k <= n ==> !After(COLD, Steady(x, k, p), p).tripped {
      UntrippedClimbs(x, n, p, d);
    }
    var k: nat :| k <= n && After(COLD, Steady(x, k, p), p).tripped;
    ss := Steady(x, k, p);
  }

  /** Below rated current, settled, and tripped all the same, by heat alone. */
  ghost predicate Nuisance(ss: seq<Sample>, p: Params) {
    Settled(ss, p) && NuisanceAnywhere(ss, p)
  }

  /** The same with inrush windows open or not. */
  ghost predicate NuisanceAnywhere(ss: seq<Sample>, p: Params) {
    Below(ss, 1.0) && NoInstant(ss, p) && After(COLD, ss, p).tripped
  }

  /** A cold fuse never trips thermally below rated current, with the bridge's
      inrush over, if and only if its threshold is at least min(1, KINST)
      squared times 1/TAUCOOL - UPDATE_S (and not negative).  With KINST at
      least 1 that is the condition for runs with inrush windows as well. */
  lemma {:induction false} NoNuisanceTripIff(p: Params)
    requires p.tauCool > 0.0 && p.kInst > 0.0
    ensures (forall ss :: !Nuisance(ss, p)) <==> Limit(p) * Limit(p) * RatedHeat(p) <= p.heatThresh
    ensures p.kInst >= 1.0 ==> ((forall ss :: !NuisanceAnywhere(ss, p)) <==> RatedHeat(p) <= p.heatThresh)
  {
    if Limit(p) * Limit(p) * RatedHeat(p) <= p.heatThresh {
      NoNuisance(p);
    } else {
      var ss := HotRunTrips(p);
      assert Nuisance(ss, p) && NuisanceAnywhere(ss, p);
    }
  }

  lemma {:induction false} NoNuisance(p: Params)
    requires p.tauCool > 0.0 && p.kInst > 0.0 && Limit(p) * Limit(p) * RatedHeat(p) <= p.heatThresh
    ensures forall ss :: !Nuisance(ss, p)
    ensures p.kInst >= 1.0 ==> forall ss :: !NuisanceAnywhere(ss, p)
  {
    var m := Limit(p);
    ScaleUp(0.0, m, m);
    ScaleUp(0.0, RatedHeat(p), m * m);
    forall ss
      ensures !Nuisance(ss, p)
      ensures p.kInst >= 1.0 ==> !NuisanceAnywhere(ss, p)
    {
      if NuisanceAnywhere(ss, p) && (p.kInst >= 1.0 || Settled(ss, p)) {
        assert Below(ss, m);
        RatedNeverTrips(COLD, ss, p, m);
      }
    }
  }

  // ---- Why a fuse trips --------------------------------------------------------------------

  /** A sample at KINST or more times rated current, past the bridge's own
      inrush and with no other bridge in its own. */
  predicate Extreme(s: Sample, p: Params) {
    s.iNorm >= p.kInst && s.now > s.onUs + p.inrushUs && !s.inrush
  }

  lemma AfterStep(f: Fuse, ss: seq<Sample>, p: Params, n: nat)
    requires n < |ss|
    ensures After(f, ss[..n + 1], p) == Step(After(f, ss[..n], p), ss[n], p)
  {
    assert ss[..n + 1][..n] == ss[..n];
  }

  /** In every run: an extreme sample trips the fuse within that very sample,
      whatever its heat, and adds none. */
  lemma ExtremeTrips(f: Fuse, ss: seq<Sample>, p: Params, n: nat)
    requires n < |ss| && Extreme(ss[n], p)
    ensures var before, r := After(f, ss[..n], p), After(f, ss[..n + 1], p);
            r.tripped && r.tripTime == ss[n].now && r.heat == before.heat
  {
    AfterStep(f, ss, p, n);
  }

  /** In every run: the fuse trips, or its trip is renewed, at an extreme sample
      or one that leaves it hotter than the threshold, and at no other; its
      time is then that of the sample. */
  lemma TripsIff(f: Fuse, ss: seq<Sample>, p: Params, n: nat)
    requires n < |ss|
    ensures var before, r := After(f, ss[..n], p), After(f, ss[..n + 1], p);
            && (Extreme(ss[n], p) || r.heat > p.heatThresh ==> r.tripped)
            && (r.tripped && !before.tripped ==> Extreme(ss[n], p) || r.heat > p.heatThresh)
            && r.tripTime == if Extreme(ss[n], p) || r.heat > p.heatThresh then ss[n].now else before.tripTime
  {
    AfterStep(f, ss, p, n);
  }

  /** A trip ends only at a sample that is not extreme, leaves the fuse within
      its threshold and comes more than TCOOL after the trip; and then it does. */
  lemma ClearsIff(f: Fuse, ss: seq<Sample>, p: Params, n: nat)
    requires n < |ss| && After(f, ss[..n], p).tripped
    ensures var before, r := After(f, ss[..n], p), After(f, ss[..n + 1], p);
            !r.tripped <==> !Extreme(ss[n], p) && r.heat <= p.heatThresh && ss[n].now - before.tripTime > p.tCool
  {
    AfterStep(f, ss, p, n);
  }

  // ---- Overload ------------------------------------------------------------------------

  ghost predicate Overload(ss: seq<Sample>, k: real) {
    forall n :: 0 <= n < |ss| ==> ss[n].iNorm >= k
  }

  lemma GainAtLeast(x: real, k: real)
    requires x >= k >= 0.0
    ensures Gain(x) >= Gain(k) >= 0.0
  {
    ScaleUp(k, x, x);
    ScaleUp(k, x, k);
    ScaleUp(0.0, k, k);
  }

  lemma OverloadStep(f: Fuse, s: Sample, p: Params, k: real)
    requires k >= 1.0 && s.iNorm >= k && !Step(f, s, p).tripped
    ensures Step(f, s, p).heat >= f.heat + Gain(k)
  {
    GainAtLeast(s.iNorm, k);
  }

  lemma OverloadRises(f: Fuse, ss: seq<Sample>, p: Params, k: real, i: nat)
    requires k >= 1.0 && Overload(ss, k) && i < |ss| && !After(f, ss[..i + 1], p).tripped
    ensures After(f, ss[..i], p).heat + Gain(k) <= After(f, ss[..i + 1], p).heat
  {
    assert ss[..i + 1][..i] == ss[..i];
    OverloadStep(After(f, ss[..i], p), ss[i], p, k);
  }

  /** While an overload has not tripped the fuse, each sample adds its heat. */
  lemma OverloadHeats(f: Fuse, ss: seq<Sample>, p: Params, k: real, h: nat -> real)
    requires k >= 1.0 && Overload(ss, k)
    requires forall n :: 0 < n <= |ss| ==> !After(f, ss[..n], p).tripped
    requires forall n: nat :: n <= |ss| ==> h(n) == After(f, ss[..n], p).heat
    ensures h(0) + |ss| as real * Gain(k) <= h(|ss|)
  {
    forall i: nat | i < |ss|
      ensures h(i) + Gain(k) <= h(i + 1)
    {
      OverloadRises(f, ss, p, k, i);
    }
    LinearGrowth(h, |ss|, Gain(k));
  }

  /** Samples that surely suffice at k times rated current. */
  function TripWithin(p: Params, k: real): nat
    requires p.heatThresh >= 0.0 && k >= 1.0
  {
    GainAtLeast(k, 1.0);
    RatioCovers(p.heatThresh, Gain(k));
    (p.heatThresh / Gain(k)).Floor + 1
  }

  /** n samples at k times rated current carry more heat than the threshold. */
  predicate Covers(n: nat, k: real, p: Params) {
    n as real * Gain(k) > p.heatThresh
  }

  lemma TripWithinSuffices(p: Params, k: real)
    requires p.heatThresh >= 0.0 && k >= 1.0
    ensures Covers(TripWithin(p, k), k, p)
  {
    GainAtLeast(k, 1.0);
    RatioCovers(p.heatThresh, Gain(k));
    StrictScale(p.heatThresh / Gain(k), TripWithin(p, k) as real, Gain(k));
  }

  lemma UntrippedIsCool(f: Fuse, ss: seq<Sample>, p: Params)
    requires ss != [] && !After(f, ss, p).tripped
    ensures After(f, ss, p).heat <= p.heatThresh
  {
  }

  lemma UntrippedIsShort(f: Fuse, ss: seq<Sample>, p: Params, k: real)
    requires p.heatThresh >= 0.0 && k >= 1.0 && f.heat >= 0.0 && Overload(ss, k) && ss != []
    requires forall n :: 0 < n <= |ss| ==> !After(f, ss[..n], p).tripped
    ensures !Covers(|ss|, k, p)
  {
    OverloadHeats(f, ss, p, k, (n: nat) => if n <= |ss| then After(f, ss[..n], p).heat else 0.0);
    assert ss[..|ss|] == ss;
    UntrippedIsCool(f, ss, p);
  }

  /** A sustained overload trips the fuse, by the instant or the thermal path,
      within floor(HEAT_THRESH / (k*k*UPDATE_S)) + 1 samples. */
  lemma OverloadTrips(f: Fuse, ss: seq<Sample>, p: Params, k: real)
    requires p.heatThresh >= 0.0 && k >= 1.0 && f.heat >= 0.0
    requires Overload(ss, k) && |ss| == TripWithin(p, k)
    ensures exists n :: 0 < n <= |ss| && After(f, ss[..n], p).tripped
  {
    TripWithinSuffices(p, k);
    if forall n :: 0 < n <= |ss| ==> !After(f, ss[..n], p).tripped {
      UntrippedIsShort(f, ss, p, k);
    }
  }

  /** Once tripped at time t, tripped at every sample up to t + TCOOL. */
  lemma {:induction false} TripHolds(f: Fuse, ss: seq<Sample>, p: Params, t: int)
    requires f.tripped && f.tripTime >= t
    requires forall n :: 0 <= n < |ss| ==> t <= ss[n].now <= t + p.tCool
    ensures After(f, ss, p).tripped && After(f, ss, p).tripTime >= t
    decreases |ss|
  {
    if ss != [] {
      TripHolds(f, ss[..|ss| - 1], p, t);
    }
  }

  // ---- Clearing ----------------------------------------------------------------------

  /** r(k) is the fuse before sample k of an endless run. */
  ghost predicate Follows(r: nat -> Fuse, s: nat -> Sample, p: Params) {
    r(0).heat >= 0.0 && forall k: nat :: Follow(r, s, p, k)
  }

  ghost predicate Follow(r: nat -> Fuse, s: nat -> Sample, p: Params, k: nat) {
    r(k + 1) == Step(r(k), s(k), p)
  }

  /** Less than m times rated current from one sample on. */
  ghost predicate QuietFrom(s: nat -> Sample, from: nat, m: real) {
    forall j: nat :: from <= j ==> 0.0 <= s(j).iNorm < m
  }

  lemma SquareNonNegative(x: real)
    ensures Gain(x) >= 0.0
  {
    if x >= 0.0 {
      ScaleUp(0.0, x, x);
    } else {
      ScaleUp(0.0, -x, -x);
    }
  }

  /** Below m times rated current the fuse settles under its threshold. */
  predicate CanClear(p: Params, m: real) {
    p.tauCool > 0.0 && 0.0 < m <= 1.0 && m <= p.kInst && m * m * RatedHeat(p) < p.heatThresh
  }

  lemma {:induction false} HeatStays(r: nat -> Fuse, s: nat -> Sample, p: Params, k: nat)
    requires Follows(r, s, p)
    ensures r(k).heat >= 0.0
  {
    if k > 0 {
      HeatStays(r, s, p, k - 1);
      SquareNonNegative(s(k - 1).iNorm);
      assert Follow(r, s, p, k - 1);
    }
  }

  lemma CoolProduct(h: real, a: real, c: real)
    ensures (h - h * a) * (c + a) == h * c - h * a * (c + a - 1.0)
  {
  }

  /** One cooling step: the heat left, weighed with a on top, is no more. */
  lemma CoolOnce(h: real, t: real, c: real, top: real)
    requires h >= 0.0 && t > 0.0 && c >= 1.0 && h * c <= top
    ensures 0.0 <= Cooled(h, t) && Cooled(h, t) * (c + PerUpdate(t)) <= top
  {
    var a := PerUpdate(t);
    ScaleUp(0.0, h, c);
    assert PerUpdate(h * t) == h * a;
    if h - h * a > 0.0 {
      CoolProduct(h, a, c);
      ScaleUp(0.0, h, a);
      ScaleUp(0.0, h * a, c + a - 1.0);
    }
  }

  /** 1 + k a. */
  function Weight(k: nat, a: real): real { 1.0 + k as real * a }

  lemma WeightStep(k: nat, a: real)
    requires a >= 0.0
    ensures Weight(k + 1, a) == Weight(k, a) + a && Weight(k, a) >= 1.0
  {
    OneMore(k + 1, a);
    ScaleUp(0.0, k as real, a);
  }

  /** A quiet sample on a cool fuse keeps it cool, keeps the trip time, and
      clears the trip once TCOOL has gone by. */
  lemma CoolSample(f: Fuse, s: Sample, p: Params, m: real)
    requires CanClear(p, m) && 0.0 <= s.iNorm < m && 0.0 <= f.heat <= p.heatThresh
    ensures 0.0 <= Step(f, s, p).heat <= p.heatThresh && Step(f, s, p).tripTime == f.tripTime
    ensures s.now - f.tripTime > p.tCool ==> !Step(f, s, p).tripped
  {
    HeatedBounded(f.heat, s.iNorm, p, m, p.heatThresh);
  }

  /** Heat above the base b, when b itself stays below b, falls as if it were
      all the heat there is. */
  lemma ExcessFalls(h: real, x: real, p: Params, b: real)
    requires 0.0 <= x < 1.0 && h >= 0.0 && b >= 0.0 && p.tauCool > 0.0
    requires 0.0 <= Heated(b, x, p) <= b && (h <= b ==> Heated(h, x, p) <= b)
    ensures Max0(Heated(h, x, p) - b) <= Cooled(Max0(h - b), p.tauCool)
  {
    var e, g, t := h - b, Gain(x), p.tauCool;
    if e > 0.0 {
      assert (h + g) * t == (b + g) * t + e * t;
    }
  }

  lemma QuietSample(f: Fuse, s: Sample, p: Params, m: real, b: real)
    requires CanClear(p, m) && 0.0 <= s.iNorm < m && f.heat >= 0.0
    requires b >= 0.0 && m * m * RatedHeat(p) <= b
    ensures Max0(Step(f, s, p).heat - b) <= Cooled(Max0(f.heat - b), p.tauCool)
  {
    HeatedBounded(b, s.iNorm, p, m, b);
    if f.heat <= b {
      HeatedBounded(f.heat, s.iNorm, p, m, b);
    }
    ExcessFalls(f.heat, s.iNorm, p, b);
    assert Step(f, s, p).heat == Heated(f.heat, s.iNorm, p);
  }

  ghost predicate CoolStep(e: nat -> real, t: real, i: nat) {
    0.0 <= e(i) && 0.0 <= e(i + 1) <= Cooled(e(i), t)
  }

  /** k cooling steps divide what there was by at least 1 + k * a. */
  lemma {:induction false} Decay(e: nat -> real, t: real, n: nat, k: nat)
    requires t > 0.0 && forall i: nat :: n <= i ==> CoolStep(e, t, i)
    ensures e(n + k) * Weight(k, PerUpdate(t)) <= e(n)
  {
    var a := PerUpdate(t);
    if k == 0 {
      assert Weight(0, a) == 1.0;
    } else {
      Decay(e, t, n, k - 1);
      WeightStep(k - 1, a);
      assert CoolStep(e, t, n + k - 1);
      CoolOnce(e(n + k - 1), t, Weight(k - 1, a), e(n));
      ScaleUp(e(n + k), Cooled(e(n + k - 1), t), Weight(k, a));
    }
  }

  lemma QuietFall(r: nat -> Fuse, s: nat -> Sample, p: Params, m: real, b: real, n: nat, i: nat)
    requires CanClear(p, m) && Follows(r, s, p) && QuietFrom(s, n, m) && n <= i
    requires b >= 0.0 && m * m * RatedHeat(p) <= b
    ensures Max0(r(i + 1).heat - b) <= Cooled(Max0(r(i).heat - b), p.tauCool)
  {
    HeatStays(r, s, p, i);
    assert Follow(r, s, p, i);
    QuietSample(r(i), s(i), p, m, b);
  }

  /** So do k quiet samples with the heat above b. */
  lemma CoolsBy(r: nat -> Fuse, s: nat -> Sample, p: Params, m: real, b: real, n: nat, k: nat)
    requires CanClear(p, m) && Follows(r, s, p) && QuietFrom(s, n, m)
    requires b >= 0.0 && m * m * RatedHeat(p) <= b
    ensures Max0(r(n + k).heat - b) * Weight(k, PerUpdate(p.tauCool)) <= Max0(r(n).heat - b)
  {
    var e := (i: nat) => Max0(r(i).heat - b);
    forall i: nat | n <= i
      ensures CoolStep(e, p.tauCool, i)
    {
      QuietFall(r, s, p, m, b, n, i);
    }
    Decay(e, p.tauCool, n, k);
  }

  /** What the threshold leaves above the heat a quiet fuse settles at. */
  function Gap(p: Params, m: real): (gap: real)
    requires CanClear(p, m)
    ensures gap > 0.0
  {
    p.heatThresh - m * m * RatedHeat(p)
  }

  /** Quiet samples after which the heat is within the threshold. */
  function CoolWithin(p: Params, m: real, heat: real): nat
    requires CanClear(p, m) && heat >= 0.0
  {
    RatioCovers(heat, Gap(p, m));
    RatioCovers(heat / Gap(p, m), PerUpdate(p.tauCool));
    (heat / Gap(p, m) / PerUpdate(p.tauCool)).Floor + 1
  }

  lemma CoolWithinSuffices(p: Params, m: real, heat: real)
    requires CanClear(p, m) && heat >= 0.0
    ensures Weight(CoolWithin(p, m, heat), PerUpdate(p.tauCool)) > heat / Gap(p, m)
  {
    var a := PerUpdate(p.tauCool);
    RatioCovers(heat, Gap(p, m));
    RatioCovers(heat / Gap(p, m), a);
    StrictScale(heat / Gap(p, m) / a, CoolWithin(p, m, heat) as real, a);
  }

  lemma EnoughCooling(e: real, c: real, top: real, gap: real)
    requires gap > 0.0 && top >= 0.0 && e * c <= top && c > top / gap
    ensures e <= gap
  {
    RatioCovers(top, gap);
    StrictScale(top / gap, c, gap);
    if e > gap {
      StrictScale(gap, e, c);
    }
  }

  lemma Cools(r: nat -> Fuse, s: nat -> Sample, p: Params, m: real, n: nat)
    requires CanClear(p, m) && Follows(r, s, p) && QuietFrom(s, n, m) && r(n).heat >= 0.0
    ensures 0.0 <= r(n + CoolWithin(p, m, r(n).heat)).heat <= p.heatThresh
  {
    var b := m * m * RatedHeat(p);
    ScaleUp(0.0, m, m);
    ScaleUp(0.0, m * m, RatedHeat(p));
    var k := CoolWithin(p, m, r(n).heat);
    HeatStays(r, s, p, n + k);
    CoolsBy(r, s, p, m, b, n, k);
    CoolWithinSuffices(p, m, r(n).heat);
    EnoughCooling(Max0(r(n + k).heat - b), Weight(k, PerUpdate(p.tauCool)), r(n).heat, Gap(p, m));
  }

  /** Once cool, a quiet fuse stays cool and keeps its trip time; it is clear
      after every sample more than TCOOL past that. */
  lemma {:induction false} CoolClears(r: nat -> Fuse, s: nat -> Sample, p: Params, m: real, n: nat, k: nat)
    requires CanClear(p, m) && Follows(r, s, p) && QuietFrom(s, n, m) && 0.0 <= r(n).heat <= p.heatThresh
    ensures 0.0 <= r(n + k).heat <= p.heatThresh && r(n + k).tripTime == r(n).tripTime
    ensures s(n + k).now - r(n).tripTime > p.tCool ==> !r(n + k + 1).tripped
  {
    if k > 0 {
      CoolClears(r, s, p, m, n, k - 1);
      assert Follow(r, s, p, n + k - 1);
      CoolSample(r(n + k - 1), s(n + k - 1), p, m);
    }
    assert Follow(r, s, p, n + k);
    CoolSample(r(n + k), s(n + k), p, m);
  }

  lemma {:induction false} TripTimeBefore(r: nat -> Fuse, s: nat -> Sample, p: Params, n: nat, t: int)
    requires Follows(r, s, p) && r(0).tripTime <= t && forall j: nat :: j < n ==> s(j).now <= t
    ensures r(n).tripTime <= t
  {
    if n > 0 {
      TripTimeBefore(r, s, p, n - 1, t);
      assert Follow(r, s, p, n - 1);
    }
  }

  /** Quiet samples, 20 ms apart, from which on the fuse is clear. */
  function ClearWithin(p: Params, m: real, heat: real): nat
    requires CanClear(p, m) && heat >= 0.0
  {
    CoolWithin(p, m, heat) + p.tCool / TICK_US + 1
  }

  /** A trip ends: below m times rated current, any fuse is clear from
      ClearWithin samples on. */
  lemma TripEnds(r: nat -> Fuse, s: nat -> Sample, p: Params, m: real, base: int, k: nat)
    requires CanClear(p, m) && Follows(r, s, p) && QuietFrom(s, 0, m) && r(0).tripTime <= base
    requires forall j: nat :: s(j).now == base + TICK_US * (j + 1)
    requires k >= ClearWithin(p, m, r(0).heat)
    ensures !r(k).tripped
  {
    var n := CoolWithin(p, m, r(0).heat);
    Cools(r, s, p, m, 0);
    TripTimeBefore(r, s, p, n, base + TICK_US * n);
    CoolClears(r, s, p, m, n, k - n - 1);
  }

  // ---- One sensor, three bridges (V5) -------------------------------------------------------

  /** The active bridge with the highest nominal current; the first among
      equals; 3 when none is active. */
  method DominantActiveBridge(active: seq<bool>, iNominal: seq<real>) returns (best: nat)
    requires |active| == 3 && |iNominal| == 3 && forall b :: 0 <= b < 3 ==> iNominal[b] >= 0.0
    ensures best == 3 <==> forall b :: 0 <= b < 3 ==> !active[b]
    ensures best < 3 ==>
              && active[best]
              && (forall b :: 0 <= b < 3 && active[b] ==> iNominal[b] <= iNominal[best])
              && (forall b :: 0 <= b < best && active[b] ==> iNominal[b] < iNominal[best])
    ensures best <= 3
  {
    best := 3;
    var bestInom := -1.0;
    var b := 0;
    while b < 3
      invariant 0 <= b <= 3
      invariant best == 3 || best < b
      invariant best == 3 ==> bestInom == -1.0 && forall c :: 0 <= c < b ==> !active[c]
      invariant best < 3 ==> active[best] && bestInom == iNominal[best]
      invariant best < 3 ==> forall c :: 0 <= c < b && active[c] ==> iNominal[c] <= bestInom
      invariant best < 3 ==> forall c :: 0 <= c < best && active[c] ==> iNominal[c] < bestInom
    {
      if active[b] && iNominal[b] > bestInom {
        bestInom := iNominal[b];
        best := b;
      }
      b := b + 1;
    }
  }
}
