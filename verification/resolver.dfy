/** The outcome rule of the spin handler: reel 0 is drawn freely, and reels 1
    and 2 are then forced onto reel 0's win symbol or kept off both win
    symbols. Every random draw is an index parameter. */
module Resolver {
  import opened Wrappers
  import opened Draw
  import opened Catalog

  /** The two labels that pay out when all three reels show them. */
  const Beer: string := "啤酒"
  const PreMixed: string := "预调酒"

  predicate IsWinSymbol(s: string) {
    s == Beer || s == PreMixed
  }

  /** `reel.filter(item => item !== Beer && item !== PreMixed)`: the reel
      with both win symbols removed, every other label kept as often as it
      occurs. */
  function Allowed(reel: Reel): (allowed: Reel)
    ensures |allowed| <= |reel|
    ensures forall x :: multiset(allowed)[x] == if IsWinSymbol(x) then 0 else multiset(reel)[x]
    ensures forall x :: x in allowed <==> x in reel && !IsWinSymbol(x)
  {
    if |reel| == 0 then []
    else
      var rest := Allowed(reel[1..]);
      assert reel == [reel[0]] + reel[1..];
      if IsWinSymbol(reel[0]) then rest else [reel[0]] + rest
  }

  /** `filter` keeps the order of the labels it keeps: filtering a
      concatenation filters each part in turn. */
  lemma {:induction false} AllowedKeepsOrder(a: Reel, b: Reel)
    ensures Allowed(a + b) == Allowed(a) + Allowed(b)
  {
    if |a| == 0 {
      assert a + b == b;
    } else {
      assert (a + b)[1..] == a[1..] + b;
      AllowedKeepsOrder(a[1..], b);
    }
  }

  /** A single label is kept exactly when it is not a win symbol. */
  lemma AllowedSingle(x: string)
    ensures Allowed([x]) == if IsWinSymbol(x) then [] else [x]
  {
    assert [x][1..] == [];
  }

  /** The filtered list is empty exactly when every label of the reel is a
      win symbol (in particular when the reel itself is empty). */
  lemma AllowedEmptyIff(reel: Reel)
    ensures |Allowed(reel)| == 0 <==> forall i :: 0 <= i < |reel| ==> IsWinSymbol(reel[i])
  {
    if |Allowed(reel)| == 0 {
      forall i | 0 <= i < |reel|
        ensures IsWinSymbol(reel[i])
      {
        assert reel[i] in reel;
      }
    } else {
      var x := Allowed(reel)[0];
      assert x in Allowed(reel);
      var i :| 0 <= i < |reel| && reel[i] == x;
    }
  }

  /** The three draws of one spin: over reel 0, and over the filtered lists
      of reels 1 and 2 (used only when reel 0 shows no win symbol). */
  datatype Draws = Draws(reel0: nat, reel1: nat, reel2: nat)

  predicate ValidDraws(c: Catalog, d: Draws)
    requires |c| >= MinReels
  {
    && ValidDraw(d.reel0, |c[0]|)
    && ValidDraw(d.reel1, |Allowed(c[1])|)
    && ValidDraw(d.reel2, |Allowed(c[2])|)
  }

  /** The target index of each of the first three reels. A missing index
      (the source's -1) is None. */
  datatype Outcome = Outcome(index0: nat, index1: Option<nat>, index2: Option<nat>)

  /** Reel 0's label, `undefined` when reel 0 is empty. */
  function FirstResult(c: Catalog, d: Draws): (s: Option<string>)
    requires |c| >= MinReels
    requires ValidDraws(c, d)
    ensures |c[0]| > 0 ==> d.reel0 < |c[0]| && s == Some(c[0][d.reel0])
    ensures |c[0]| == 0 ==> s == None
  {
    SymbolAt(c[0], d.reel0)
  }

  /** The target of reel 1 or 2 when reel 0 shows no win symbol: a label
      drawn from the filtered list (or the reel's first label when that list
      is empty), mapped back to its first index in the full reel, with a
      missing index clamped to 0. */
  function NonWinTarget(reel: Reel, r: nat): (t: Option<nat>)
    requires ValidDraw(r, |Allowed(reel)|)
    ensures t.Some?
    ensures |Allowed(reel)| > 0 ==>
      && t.value < |reel|
      && reel[t.value] == Allowed(reel)[r]
      && !IsWinSymbol(reel[t.value])
      && FirstOccurrence(reel, reel[t.value], t)
    ensures |Allowed(reel)| == 0 ==> t == Some(0)
  {
    var allowed := Allowed(reel);
    var chosen := if |allowed| > 0 then Some(allowed[r]) else SymbolAt(reel, 0);
    var found := match chosen case None => None case Some(s) => IndexOf(reel, s);
    assert |allowed| > 0 ==> allowed[r] in allowed;
    Some(if found.None? then 0 else found.value)
  }

  /** The resolver of one spin. */
  function Resolve(c: Catalog, d: Draws): (o: Outcome)
    requires |c| >= MinReels
    requires ValidDraws(c, d)
    ensures o.index0 == d.reel0
    ensures |c[0]| > 0 ==> o.index0 < |c[0]|
    ensures forall w :: FirstResult(c, d) == Some(w) && IsWinSymbol(w) ==>
      FirstOccurrence(c[1], w, o.index1) && FirstOccurrence(c[2], w, o.index2)
    ensures (FirstResult(c, d).None? || !IsWinSymbol(FirstResult(c, d).value)) ==>
      o.index1 == NonWinTarget(c[1], d.reel1) && o.index2 == NonWinTarget(c[2], d.reel2)
  {
    var result1 := FirstResult(c, d);
    if result1 == Some(Beer) then
      Outcome(d.reel0, IndexOf(c[1], Beer), IndexOf(c[2], Beer))
    else if result1 == Some(PreMixed) then
      Outcome(d.reel0, IndexOf(c[1], PreMixed), IndexOf(c[2], PreMixed))
    else
      Outcome(d.reel0, NonWinTarget(c[1], d.reel1), NonWinTarget(c[2], d.reel2))
  }
}
