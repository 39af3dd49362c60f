/** The symbol catalog: one ordered list of labels per reel, loaded once and
    then only read. */
module Catalog {
  import opened Wrappers

  type Reel = seq<string>
  type Catalog = seq<Reel>

  /** The fewest reels the load check and the spin guard accept. */
  const MinReels: nat := 3

  /** The load-time check: the data must be an array of at least three
      arrays. That every entry is an array is already the type here; no reel
      is required to be non-empty. */
  function Load(data: Catalog): (loaded: Option<Catalog>)
    ensures loaded.Some? <==> |data| >= MinReels
    ensures loaded.Some? ==> loaded.value == data
  {
    if |data| < MinReels then None else Some(data)
  }

  /** What the global symbol table holds after the single load attempt: the
      accepted data, or the initial empty table when the check failed. */
  function Installed(data: Catalog): (table: Catalog)
    ensures Load(data).Some? ==> table == data
    ensures Load(data).None? ==> table == []
  {
    match Load(data)
    case Some(c) => c
    case None => []
  }

  /** The spin guard: a spin proceeds only on a table of at least three reels. */
  predicate Ready(table: Catalog) {
    |table| >= MinReels
  }

  /** The guard lets a spin through exactly when the load was accepted. */
  lemma ReadyIffLoaded(data: Catalog)
    ensures Ready(Installed(data)) <==> Load(data).Some?
  {
  }

  /** The check admits catalogs whose reels are all empty. */
  lemma LoadAdmitsEmptyReels()
    ensures Load([[], [], []]).Some?
  {
  }

  /** JavaScript's `reel[i]`: the label at `i`, or `undefined` (None) when `i`
      is negative or past the end. */
  function SymbolAt(reel: Reel, i: int): (s: Option<string>)
    ensures s.Some? <==> 0 <= i < |reel|
    ensures s.Some? ==> s.value == reel[i]
  {
    if 0 <= i < |reel| then Some(reel[i]) else None
  }

  /** `t` is what `reel.indexOf(x)` returns, with None for -1: the first
      position holding `x`, or None exactly when `x` does not occur. */
  predicate FirstOccurrence(reel: Reel, x: string, t: Option<nat>) {
    match t
    case None => x !in reel
    case Some(i) => i < |reel| && reel[i] == x && forall j :: 0 <= j < i ==> reel[j] != x
  }

  /** `Array.prototype.indexOf`, scanning from the front. */
  function IndexOf(reel: Reel, x: string): (t: Option<nat>)
    ensures FirstOccurrence(reel, x, t)
  {
    if |reel| == 0 then None
    else if reel[0] == x then Some(0)
    else
      match IndexOf(reel[1..], x)
      case None => None
      case Some(i) => Some(i + 1)
  }

  /** The JavaScript number that stands for an index: -1 for a missing one. */
  function JsIndex(t: Option<nat>): (n: int)
    ensures t.None? ==> n == -1
    ensures t.Some? ==> n == t.value
  {
    match t
    case None => -1
    case Some(i) => i
  }

  /** Reading a reel at the number that encodes an index reads the index
      itself, and a missing index reads `undefined`. */
  lemma SymbolAtJsIndex(reel: Reel, t: Option<nat>)
    ensures t.None? ==> SymbolAt(reel, JsIndex(t)) == None
    ensures t.Some? && t.value < |reel| ==> SymbolAt(reel, JsIndex(t)) == Some(reel[t.value])
  {
  }
}
