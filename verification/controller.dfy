/** The spin handler: the readiness guard, the resolver, one spin per reel,
    and the win check over the labels the reels land on. */
module Controller {
  import opened Wrappers
  import opened Draw
  import opened Catalog
  import opened Resolver
  import opened ReelMotion

  /** The labels shown by the first three reels; `undefined` is None. */
  datatype Faces = Faces(s0: Option<string>, s1: Option<string>, s2: Option<string>)

  predicate IsBeerWin(f: Faces) {
    f.s0 == Some(Beer) && f.s1 == Some(Beer) && f.s2 == Some(Beer)
  }

  predicate IsPreMixedWin(f: Faces) {
    f.s0 == Some(PreMixed) && f.s1 == Some(PreMixed) && f.s2 == Some(PreMixed)
  }

  /** The three ways a spin is reported. */
  datatype Verdict = BeerWin | PreMixedWin | NoWin

  /** The result branch: the beer win is checked first, then the pre-mixed
      win. A win is three equal labels that are a win symbol. */
  function Evaluate(f: Faces): (v: Verdict)
    ensures v == BeerWin <==> IsBeerWin(f)
    ensures v == PreMixedWin <==> IsPreMixedWin(f)
    ensures v != NoWin <==> f.s0 == f.s1 == f.s2 && f.s0.Some? && IsWinSymbol(f.s0.value)
  {
    if IsBeerWin(f) then BeerWin
    else if IsPreMixedWin(f) then PreMixedWin
    else NoWin
  }

  /** The two win conditions never hold together. */
  lemma WinsExclusive(f: Faces)
    ensures !(IsBeerWin(f) && IsPreMixedWin(f))
  {
  }

  /** The label a reel shows at a target index; a missing index shows
      `undefined`. */
  function Landed(reel: Reel, t: Option<nat>): (s: Option<string>)
    ensures t.Some? && t.value < |reel| ==> s == Some(reel[t.value])
    ensures (t.None? || t.value >= |reel|) ==> s == None
  {
    SymbolAt(reel, JsIndex(t))
  }

  /** The labels an outcome puts on the first three reels. */
  function OutcomeFaces(c: Catalog, o: Outcome): Faces
    requires |c| >= MinReels
  {
    Faces(Landed(c[0], Some(o.index0)), Landed(c[1], o.index1), Landed(c[2], o.index2))
  }

  /** The momentum draws of the three reel spins. */
  datatype Momenta = Momenta(m0: nat, m1: nat, m2: nat)

  predicate ValidMomenta(m: Momenta) {
    ValidDraw(m.m0, MomentumChoices) && ValidDraw(m.m1, MomentumChoices) && ValidDraw(m.m2, MomentumChoices)
  }

  /** Why a spin does not happen. */
  datatype SpinError = NotReady

  /** Everything one completed spin produces. */
  datatype SpinReport = SpinReport(outcome: Outcome, spins: seq<ReelSpin>, faces: Faces, verdict: Verdict)

  /** One click of the spin button on the current symbol table. */
  function Spin(table: Catalog, d: Draws, m: Momenta): (r: Result<SpinReport, SpinError>)
    requires |table| >= MinReels ==> ValidDraws(table, d)
    requires ValidMomenta(m)
    ensures r.Failure? <==> !Ready(table)
    ensures r.Success? ==>
      && r.value.outcome == Resolve(table, d)
      && |r.value.spins| == 3
      && r.value.spins == [SpinReel(|table[0]|, r.value.outcome.index0, m.m0),
                           SpinReel(|table[1]|, JsIndex(r.value.outcome.index1), m.m1),
                           SpinReel(|table[2]|, JsIndex(r.value.outcome.index2), m.m2)]
      && r.value.verdict == Evaluate(r.value.faces)
      && r.value.faces == OutcomeFaces(table, r.value.outcome)
      && (r.value.verdict != NoWin <==>
            r.value.faces.s0 == r.value.faces.s1 == r.value.faces.s2
            && r.value.faces.s0.Some? && IsWinSymbol(r.value.faces.s0.value))
  {
    if |table| < MinReels then Failure(NotReady)
    else
      var o := Resolve(table, d);
      var spins := [SpinReel(|table[0]|, JsIndex(Some(o.index0)), m.m0),
                    SpinReel(|table[1]|, JsIndex(o.index1), m.m1),
                    SpinReel(|table[2]|, JsIndex(o.index2), m.m2)];
      var faces := Faces(SymbolAt(table[0], spins[0].resolved),
                         SymbolAt(table[1], spins[1].resolved),
                         SymbolAt(table[2], spins[2].resolved));
      Success(SpinReport(o, spins, faces, Evaluate(faces)))
  }

  /** Reel 0 shows the drawn label of reel 0, and the draw is in bounds
      whenever reel 0 has labels. */
  lemma FirstReelFace(c: Catalog, d: Draws)
    requires |c| >= MinReels && ValidDraws(c, d)
    ensures |c[0]| > 0 ==> OutcomeFaces(c, Resolve(c, d)).s0 == Some(c[0][d.reel0])
    ensures |c[0]| == 0 ==> OutcomeFaces(c, Resolve(c, d)).s0 == None
  {
  }

  /** When reel 0 shows a win symbol, reels 1 and 2 show it too if they
      hold it; a reel that lacks it keeps the missing index and shows
      `undefined`, with no clamping. */
  lemma WinSymbolCorrelates(c: Catalog, d: Draws, w: string)
    requires |c| >= MinReels && ValidDraws(c, d)
    requires FirstResult(c, d) == Some(w) && IsWinSymbol(w)
    ensures var o := Resolve(c, d);
      var f := OutcomeFaces(c, o);
      && (w in c[1] ==> f.s1 == Some(w))
      && (w in c[2] ==> f.s2 == Some(w))
      && (w !in c[1] ==> o.index1 == None && f.s1 == None)
      && (w !in c[2] ==> o.index2 == None && f.s2 == None)
  {
  }

  /** When reel 0 shows no win symbol, reel 1 shows no win symbol unless
      every label of reel 1 is one (its filtered list is empty, and the
      fallback first label is used); likewise for reel 2. */
  lemma NonWinKeepsOffWinSymbols(c: Catalog, d: Draws)
    requires |c| >= MinReels && ValidDraws(c, d)
    requires FirstResult(c, d).None? || !IsWinSymbol(FirstResult(c, d).value)
    ensures var f := OutcomeFaces(c, Resolve(c, d));
      && (f.s1.Some? && IsWinSymbol(f.s1.value) ==> forall i :: 0 <= i < |c[1]| ==> IsWinSymbol(c[1][i]))
      && (f.s2.Some? && IsWinSymbol(f.s2.value) ==> forall i :: 0 <= i < |c[2]| ==> IsWinSymbol(c[2][i]))
      && (|c[1]| > 0 && (forall i :: 0 <= i < |c[1]| ==> IsWinSymbol(c[1][i])) ==> f.s1 == Some(c[1][0]))
      && (|c[2]| > 0 && (forall i :: 0 <= i < |c[2]| ==> IsWinSymbol(c[2][i])) ==> f.s2 == Some(c[2][0]))
  {
    NonWinReel(c[1], d.reel1);
    NonWinReel(c[2], d.reel2);
  }

  /** One reel of the else branch: it shows a win symbol exactly when all
      of its labels are win symbols, and then it shows its first label. */
  lemma NonWinReel(reel: Reel, r: nat)
    requires ValidDraw(r, |Allowed(reel)|)
    ensures var f := Landed(reel, NonWinTarget(reel, r));
      && (f.Some? && IsWinSymbol(f.value) ==> forall i :: 0 <= i < |reel| ==> IsWinSymbol(reel[i]))
      && (|reel| > 0 && (forall i :: 0 <= i < |reel| ==> IsWinSymbol(reel[i])) ==> f == Some(reel[0]))
      && (|reel| == 0 ==> NonWinTarget(reel, r) == Some(0) && f == None)
  {
    AllowedEmptyIff(reel);
  }

  /** The empty-reel gap: the load check admits an empty reel, and on one
      the clamped fallback index 0 is out of bounds. */
  lemma EmptyReelGap(c: Catalog, d: Draws)
    requires |c| >= MinReels && ValidDraws(c, d)
    requires FirstResult(c, d).None? || !IsWinSymbol(FirstResult(c, d).value)
    ensures |c[1]| == 0 ==> Resolve(c, d).index1 == Some(0) && 0 >= |c[1]|
    ensures |c[2]| == 0 ==> Resolve(c, d).index2 == Some(0) && 0 >= |c[2]|
  {
    NonWinReel(c[1], d.reel1);
    NonWinReel(c[2], d.reel2);
  }

  /** When both win symbols occur in reels 1 and 2, a spin wins exactly when
      reel 0 shows a win symbol. */
  lemma WinIffFirstReelWins(c: Catalog, d: Draws)
    requires |c| >= MinReels && ValidDraws(c, d)
    requires Beer in c[1] && Beer in c[2] && PreMixed in c[1] && PreMixed in c[2]
    ensures Evaluate(OutcomeFaces(c, Resolve(c, d))) != NoWin <==>
      FirstResult(c, d).Some? && IsWinSymbol(FirstResult(c, d).value)
  {
    var f := OutcomeFaces(c, Resolve(c, d));
    FirstReelFace(c, d);
    if FirstResult(c, d).Some? && IsWinSymbol(FirstResult(c, d).value) {
      WinSymbolCorrelates(c, d, FirstResult(c, d).value);
    }
  }

  /** A reel 0 without a win symbol never yields a win, whatever reels 1 and
      2 hold. */
  lemma NonWinFirstReelLoses(c: Catalog, d: Draws)
    requires |c| >= MinReels && ValidDraws(c, d)
    requires FirstResult(c, d).None? || !IsWinSymbol(FirstResult(c, d).value)
    ensures Evaluate(OutcomeFaces(c, Resolve(c, d))) == NoWin
  {
    FirstReelFace(c, d);
  }

  /** The worked example: reel 0 draws beer at index 0, reels 1 and 2 are
      sent to their first beer, and the spin is a beer win. */
  lemma BeerExample()
    ensures var c := [["啤酒", "梅子"], ["啤酒", "梅子", "预调酒"], ["啤酒", "预调酒"]];
      var d := Draws(0, 0, 0);
      && ValidDraws(c, d)
      && Resolve(c, d) == Outcome(0, Some(0), Some(0))
      && Evaluate(OutcomeFaces(c, Resolve(c, d))) == BeerWin
  {
    var c := [["啤酒", "梅子"], ["啤酒", "梅子", "预调酒"], ["啤酒", "预调酒"]];
    assert Allowed(c[1]) == ["梅子"];
    assert Allowed(c[2]) == [];
  }

  /** The other worked example: reel 0 draws the plum label, reel 1 is sent
      to its only non-win label, reel 2 has none and falls back to index 0,
      and the spin is not a win. */
  lemma PlumExample()
    ensures var c := [["啤酒", "梅子"], ["啤酒", "梅子", "预调酒"], ["啤酒", "预调酒"]];
      var d := Draws(1, 0, 0);
      && ValidDraws(c, d)
      && Resolve(c, d) == Outcome(1, Some(1), Some(0))
      && OutcomeFaces(c, Resolve(c, d)) == Faces(Some("梅子"), Some("梅子"), Some("啤酒"))
      && Evaluate(OutcomeFaces(c, Resolve(c, d))) == NoWin
  {
    var c := [["啤酒", "梅子"], ["啤酒", "梅子", "预调酒"], ["啤酒", "预调酒"]];
    assert Allowed(c[1]) == ["梅子"];
    assert Allowed(c[2]) == [];
  }
}
