/** One reel's strip and spin: the strip repeats the reel's labels, a spin
    scrolls through several full sets to the target label, then snaps back
    to the same label in the first set. Offsets are vertical translations in
    pixels; row `n` is in view at offset `-(n * SymbolHeight)`. */
module ReelMotion {
  import opened Wrappers
  import opened Draw
  import opened Catalog

  /** Height of one label row in pixels. */
  const SymbolHeight: nat := 120

  /** How many copies of the reel the strip holds, as the widget sets it. */
  const NumRepetitions: nat := 10

  /** Momentum is `Math.floor(Math.random() * 6) + 5` full sets. */
  const MomentumChoices: nat := 6
  const MinMomentum: nat := 5
  const MaxMomentum: nat := MinMomentum + MomentumChoices - 1

  /** The strip length under which every spin's landing row exists: one set
      more than the largest momentum. */
  const StripRepetitions: nat := MaxMomentum + 1

  /** The strip after `reps` passes of the population loop, each pass
      appending the reel's labels in order. */
  function Strip(reel: Reel, reps: nat): (rows: seq<string>)
    ensures |rows| == reps * |reel|
  {
    if reps == 0 then [] else Strip(reel, reps - 1) + reel
  }

  /** Row `t` of the `q`-th copy shows label `t`. */
  lemma {:induction false} StripRow(reel: Reel, reps: nat, q: nat, t: nat)
    requires q < reps && t < |reel|
    ensures q * |reel| + t < |Strip(reel, reps)|
    ensures Strip(reel, reps)[q * |reel| + t] == reel[t]
  {
    var prev := Strip(reel, reps - 1);
    if q == reps - 1 {
      assert q * |reel| + t == |prev| + t;
    } else {
      StripRow(reel, reps - 1, q, t);
    }
  }

  /** Every row of the strip shows the label its position selects modulo the
      reel length. */
  lemma StripShows(reel: Reel, reps: nat, j: nat)
    requires j < |Strip(reel, reps)|
    ensures |reel| > 0 && Strip(reel, reps)[j] == reel[j % |reel|]
  {
    var len := |reel|;
    assert len > 0;
    var q, t := j / len, j % len;
    assert j == q * len + t;
    if q >= reps {
      MulMono(reps, q, len);
    }
    StripRow(reel, reps, q, t);
  }

  /** The row the viewport shows at the end of a spin of momentum `k`. */
  function LandingRow(len: nat, target: int, k: nat): int {
    k * len + target
  }

  /** The offset that brings `row` into view. */
  function RowOffset(row: int): int {
    -(row * SymbolHeight)
  }

  /** The number of full sets a momentum draw spins through. */
  function Momentum(m: nat): (k: nat)
    requires ValidDraw(m, MomentumChoices)
    ensures MinMomentum <= k <= MaxMomentum
  {
    m + MinMomentum
  }

  /** Every momentum from 5 to 10 is the outcome of exactly one draw. */
  lemma MomentumOnto(k: nat)
    requires MinMomentum <= k <= MaxMomentum
    ensures exists m :: ValidDraw(m, MomentumChoices) && Momentum(m) == k
    ensures forall m :: ValidDraw(m, MomentumChoices) && Momentum(m) == k ==> m == k - MinMomentum
  {
    assert ValidDraw(k - MinMomentum, MomentumChoices);
  }

  /** The commands one spin issues to its reel, and the index it resolves with. */
  datatype ReelSpin = ReelSpin(resetOffset: int, spinOffset: int, snapOffset: int, resolved: int)

  /** Reset to the top without animation, animate to the landing row, snap
      to the target row of the first set, and resolve with the target. The
      target is the JavaScript number, -1 included. */
  function SpinReel(len: nat, target: int, m: nat): (s: ReelSpin)
    requires ValidDraw(m, MomentumChoices)
    ensures s.resetOffset == RowOffset(0)
    ensures s.spinOffset == RowOffset(LandingRow(len, target, Momentum(m)))
    ensures s.snapOffset == RowOffset(target)
    ensures s.resolved == target
  {
    var totalSymbolsHeight := SymbolHeight * len;
    var randomFullSpins := Momentum(m);
    ReelSpin(0,
             -(randomFullSpins * totalSymbolsHeight + target * SymbolHeight),
             -(target * SymbolHeight),
             target)
  }

  /** The spin ends between five and ten full set heights below the snap
      position, a whole number of set heights away from it, so the snap does
      not change which label is in view. */
  lemma SpinSnapCongruent(len: nat, target: int, m: nat)
    requires ValidDraw(m, MomentumChoices)
    ensures var s := SpinReel(len, target, m);
      && s.snapOffset - s.spinOffset == Momentum(m) * (len * SymbolHeight)
      && MinMomentum * (len * SymbolHeight) <= s.snapOffset - s.spinOffset <= MaxMomentum * (len * SymbolHeight)
      && (len > 0 ==> (s.spinOffset - s.snapOffset) % (len * SymbolHeight) == 0)
  {
    var s := SpinReel(len, target, m);
    var k := Momentum(m);
    var h := len * SymbolHeight;
    assert s.snapOffset - s.spinOffset == k * h by {
      assert s.spinOffset == -(k * len + target) * SymbolHeight;
      assert (k * len + target) * SymbolHeight == k * h + target * SymbolHeight;
    }
    MulMono(MinMomentum, k, h);
    MulMono(k, MaxMomentum, h);
    if len > 0 {
      MultipleMod(-k, h);
      assert s.spinOffset - s.snapOffset == (-k) * h;
    }
  }

  /** A whole number of set heights is zero modulo one set height. */
  lemma MultipleMod(a: int, h: nat)
    requires h > 0
    ensures (a * h) % h == 0
  {
    var x := a * h;
    var d, r := x / h, x % h;
    assert x == d * h + r && 0 <= r < h;
    assert (a - d) * h == r;
    if a - d >= 1 {
      MulMono(1, a - d, h);
    } else if a - d <= -1 {
      MulMono(1, d - a, h);
    }
  }

  /** The animated offset equals the reset offset exactly when the reel is
      empty and the target is 0. Then the spin sets the same translation
      the reset already set, so no transition runs and its end is never
      signalled. The target ranges over what the resolver passes on: -1 or
      an index. */
  lemma SpinWithoutMovement(len: nat, target: int, m: nat)
    requires ValidDraw(m, MomentumChoices)
    requires target >= -1
    ensures var s := SpinReel(len, target, m);
      s.spinOffset == s.resetOffset <==> len == 0 && target == 0
  {
    var k := Momentum(m);
    if len > 0 {
      MulMono(1, k, len);
      assert k * len + target > 0;
    }
  }

  lemma MulMono(a: nat, b: nat, h: nat)
    requires a <= b
    ensures a * h <= b * h
  {
  }

  /** The landing row of a target inside the reel lies on the strip exactly
      when the momentum is below the number of repetitions. */
  lemma LandingRowOnStrip(len: nat, target: nat, k: nat, reps: nat)
    requires target < len
    ensures 0 <= LandingRow(len, target, k) < reps * len <==> k < reps
  {
    if k < reps {
      MulMono(k + 1, reps, len);
    } else {
      MulMono(reps, k, len);
    }
  }

  /** `populateReel` as written: ten copies of the reel, or nothing for a
      reel index past the catalog. */
  function PopulateReelAsWritten(c: Catalog, reelIndex: nat): (rows: Option<seq<string>>)
    ensures rows.None? <==> reelIndex >= |c|
    ensures rows.Some? ==> |rows.value| == NumRepetitions * |c[reelIndex]|
    ensures rows.Some? ==> forall j :: 0 <= j < |rows.value| ==> rows.value[j] == c[reelIndex][j % |c[reelIndex]|]
  {
    if reelIndex < |c| then
      var rows := Strip(c[reelIndex], NumRepetitions);
      forall j | 0 <= j < |rows|
        ensures rows[j] == c[reelIndex][j % |c[reelIndex]|]
      {
        StripShows(c[reelIndex], NumRepetitions, j);
      }
      Some(rows)
    else None
  }

  /** With ten copies, a spin of the largest momentum (draw 5, ten full
      sets) aims at a row past the end of the strip, for every reel and every
      target inside it. */
  lemma StripOverrunAsWritten(c: Catalog, reelIndex: nat, target: nat)
    requires reelIndex < |c| && target < |c[reelIndex]|
    ensures ValidDraw(5, MomentumChoices) && Momentum(5) == MaxMomentum
    ensures LandingRow(|c[reelIndex]|, target, Momentum(5)) >= |PopulateReelAsWritten(c, reelIndex).value|
  {
    LandingRowOnStrip(|c[reelIndex]|, target, Momentum(5), NumRepetitions);
  }

  /** `populateReel` with a strip one set longer than the largest momentum. */
  function PopulateReel(c: Catalog, reelIndex: nat): (rows: Option<seq<string>>)
    ensures rows.None? <==> reelIndex >= |c|
    ensures rows.Some? ==> |rows.value| == StripRepetitions * |c[reelIndex]|
    ensures rows.Some? ==> forall j :: 0 <= j < |rows.value| ==> rows.value[j] == c[reelIndex][j % |c[reelIndex]|]
  {
    if reelIndex < |c| then
      var rows := Strip(c[reelIndex], StripRepetitions);
      forall j | 0 <= j < |rows|
        ensures rows[j] == c[reelIndex][j % |c[reelIndex]|]
      {
        StripShows(c[reelIndex], StripRepetitions, j);
      }
      Some(rows)
    else None
  }

  /** On the corrected strip every spin to an index inside the reel lands
      on a row that exists and shows the same label as the snap row. */
  lemma LandingRowShowsTarget(c: Catalog, reelIndex: nat, target: nat, m: nat)
    requires reelIndex < |c|
    requires target < |c[reelIndex]|
    requires ValidDraw(m, MomentumChoices)
    ensures var rows := PopulateReel(c, reelIndex).value;
      var row := LandingRow(|c[reelIndex]|, target, Momentum(m));
      && 0 <= row < |rows|
      && rows[row] == c[reelIndex][target]
      && rows[target] == c[reelIndex][target]
  {
    var len := |c[reelIndex]|;
    var k := Momentum(m);
    StripRow(c[reelIndex], StripRepetitions, k, target);
    StripRow(c[reelIndex], StripRepetitions, 0, target);
  }
}
