# Slot-machine outcome rule

A model of the three-reel slot-machine widget of `2025/04/20/tools-comp/script.js`.
The widget loads a catalog (one list of labels per reel). On each click of the spin
button it decides where every reel stops, then animates each reel to its target and
reports a win when all three reels show `啤酒` (beer) or all three show `预调酒`
(pre-mixed drink).

The outcome rule is inline in the click handler. Here it is lifted out as pure
functions over an immutable catalog `seq<seq<string>>`. Every `Math.floor(Math.random() * n)`
becomes an index parameter `r` with `Draw.ValidDraw(r, n)`: `r < n`, or exactly `0`
when `n` is 0. JavaScript's `undefined` (an out-of-range read) and the `-1` that
`indexOf` returns for a missing label are both `None`. Only `Catalog.JsIndex` turns
an index back into the number the animation code receives.

Modules:
- `Wrappers`: `Option` and `Result`.
- `Draw`: the range of one random index draw.
- `Catalog`: the catalog type, the load check, the spin guard, `reel[i]`, and `indexOf`.
- `Resolver`: the outcome rule for reels 0, 1 and 2.
- `ReelMotion`: the repeated symbol strip and the offsets of one reel spin.
- `Controller`: one click. It covers the guard, the resolver, the three spins and the win check, plus the lemmas that relate them.

The code's own comments expect indices never to stay at `-1` (line 185, "Ensure index is not -1") and call an empty filtered list "unlikely with current lists" (line 172). The model follows what the code does, not what these comments expect:
- The code does not require reels to be non-empty. An accepted catalog may hold
  empty reels (`Catalog.LoadAdmitsEmptyReels`).
- A win symbol missing from reel 1 or 2 leaves that reel's index at `-1`. It is not
  rejected and not clamped (`Controller.WinSymbolCorrelates`).
- When reel 0 shows no win symbol, reel 1 or 2 can still land on a win symbol. This
  happens when every label of that reel is a win symbol: the filtered list is empty
  and the code falls back to the reel's first label. The second worked example shows
  it: reel 2 `["啤酒","预调酒"]` lands on `啤酒` (`Controller.PlumExample`).

## Model

| member | source | states |
|---|---|---|
| `Catalog.Load` | 2025/04/20/tools-comp/script.js:22-27 | The data is accepted exactly when it has at least three reels, and is then kept unchanged. |
| `Catalog.Installed` | 2025/04/20/tools-comp/script.js:24-44 | After the load attempt the symbol table holds the accepted data, or stays the initial empty table when the check failed. |
| `Catalog.ReadyIffLoaded` | 2025/04/20/tools-comp/script.js:131-136 | The spin guard lets a spin through exactly when the load was accepted. |
| `Catalog.LoadAdmitsEmptyReels` | 2025/04/20/tools-comp/script.js:24 | The load check accepts a catalog whose reels are all empty. |
| `Catalog.SymbolAt` | 2025/04/20/tools-comp/script.js:144 | Reading `reel[i]` gives a label exactly when `0 <= i < len`, and `undefined` otherwise. |
| `Catalog.IndexOf` | 2025/04/20/tools-comp/script.js:151-152 | `indexOf` returns the first position holding the label, or the missing index exactly when the label does not occur. |
| `Catalog.JsIndex` | 2025/04/20/tools-comp/script.js:151-154 | The number passed on for a missing index is exactly -1, the value `indexOf` returns. Otherwise it is the index itself. |
| `Catalog.SymbolAtJsIndex` | 2025/04/20/tools-comp/script.js:211 | Reading a reel at the `-1` sentinel gives `undefined`. Reading it at an in-range index gives that label. |
| `Resolver.Allowed` | 2025/04/20/tools-comp/script.js:169-170 | The filtered reel keeps every non-win label exactly as often as the reel holds it and drops both win symbols. |
| `Resolver.AllowedKeepsOrder` | 2025/04/20/tools-comp/script.js:169-170 | Filtering a concatenation filters each part in turn, so the kept labels stay in reel order. |
| `Resolver.AllowedSingle` | 2025/04/20/tools-comp/script.js:169-170 | A single label is kept exactly when it is neither win symbol. |
| `Resolver.AllowedEmptyIff` | 2025/04/20/tools-comp/script.js:172-174 | The filtered list is empty exactly when every label of the reel is a win symbol. |
| `Resolver.FirstResult` | 2025/04/20/tools-comp/script.js:143-144 | For a non-empty reel 0 the draw is in bounds and reel 0's result is the label at it. For an empty reel 0 the result is `undefined`. |
| `Resolver.NonWinTarget` | 2025/04/20/tools-comp/script.js:169-187 | The else-branch target is never missing. With a non-empty filtered list it is in bounds, shows the drawn filtered label, is not a win symbol, and is that label's first occurrence. With an empty filtered list it is 0. |
| `Resolver.Resolve` | 2025/04/20/tools-comp/script.js:138-191 | Reel 0's index is the draw and is in bounds for a non-empty reel. On a win symbol, reels 1 and 2 get that symbol's first occurrence, or a missing index. Otherwise they get the else-branch targets. |
| `ReelMotion.Strip` | 2025/04/20/tools-comp/script.js:59-66 | The strip has `reps * len` rows. |
| `ReelMotion.StripRow` | 2025/04/20/tools-comp/script.js:59-66 | Row `t` of copy `q` exists and shows label `t`. |
| `ReelMotion.StripShows` | 2025/04/20/tools-comp/script.js:59-66 | Every strip row shows the label at its position modulo the reel length. |
| `ReelMotion.Momentum` | 2025/04/20/tools-comp/script.js:90 | A momentum draw gives between 5 and 10 full sets. |
| `ReelMotion.MomentumOnto` | 2025/04/20/tools-comp/script.js:90 | Every momentum from 5 to 10 comes from exactly one draw, `k - 5`. |
| `ReelMotion.SpinReel` | 2025/04/20/tools-comp/script.js:73-112 | A spin resets to row 0, animates to the landing row `k*len + target`, snaps to row `target`, and resolves with the target it was given. |
| `ReelMotion.SpinSnapCongruent` | 2025/04/20/tools-comp/script.js:90-107 | The spin offset is the snap offset minus `k` set heights, 5 to 10 set heights lower, and congruent to it modulo one set height. |
| `ReelMotion.SpinWithoutMovement` | 2025/04/20/tools-comp/script.js:82-97 | For a target of -1 or an index, the animated offset equals the reset offset exactly when the reel is empty and the target is 0. |
| `ReelMotion.LandingRowOnStrip` | 2025/04/20/tools-comp/script.js:59-91 | For a target inside the reel, the landing row lies on a strip of `reps` copies exactly when `k < reps`. |
| `ReelMotion.PopulateReelAsWritten` | 2025/04/20/tools-comp/script.js:48-67 | A reel index past the catalog populates nothing. Otherwise the strip has `10 * len` rows, and each row shows the label at its position modulo the reel length. |
| `ReelMotion.StripOverrunAsWritten` | 2025/04/20/tools-comp/script.js:90-91 | With ten copies, a momentum of ten lands past the end of the strip for every reel and target. |
| `ReelMotion.PopulateReel` | 2025/04/20/tools-comp/script.js:48-67 | Corrected strip: eleven copies. A missing reel populates nothing, and every row shows its label modulo the reel length. |
| `ReelMotion.LandingRowShowsTarget` | 2025/04/20/tools-comp/script.js:88-109 | On the corrected strip every landing row exists and shows the same label as the snap row. |
| `Controller.Evaluate` | 2025/04/20/tools-comp/script.js:213-240 | The verdict is a beer win iff all three faces are beer, a pre-mixed win iff all three are pre-mixed, and some win iff the three faces are equal and a win symbol. |
| `Controller.WinsExclusive` | 2025/04/20/tools-comp/script.js:214-215 | The beer and pre-mixed win conditions never hold together. |
| `Controller.Landed` | 2025/04/20/tools-comp/script.js:211 | A reel shows the label at an in-range target, and `undefined` for a missing or out-of-range target. |
| `Controller.Spin` | 2025/04/20/tools-comp/script.js:131-215 | A spin fails with NotReady exactly when fewer than three reels are loaded. Otherwise it resolves once and spins each of the three reels to its outcome index with that reel's momentum draw. It reads the faces from the indices the spins resolve with, and its verdict is the win check of those faces: some win exactly when the faces are one win symbol three times. |
| `Controller.FirstReelFace` | 2025/04/20/tools-comp/script.js:143-144 | Reel 0 shows the drawn label when it has labels, and `undefined` when it is empty. |
| `Controller.WinSymbolCorrelates` | 2025/04/20/tools-comp/script.js:150-166 | When reel 0 shows a win symbol, reels 1 and 2 show it if they hold it. A reel that lacks it keeps the missing index and shows `undefined`. |
| `Controller.NonWinKeepsOffWinSymbols` | 2025/04/20/tools-comp/script.js:167-187 | When reel 0 shows no win symbol, reel 1 or 2 shows a win symbol only if every label of that reel is one. Conversely, a non-empty reel whose labels are all win symbols shows its first label. |
| `Controller.NonWinReel` | 2025/04/20/tools-comp/script.js:169-187 | One else-branch reel shows a win symbol only if all its labels are win symbols, then shows its first label, and an empty reel gets index 0 and shows `undefined`. |
| `Controller.EmptyReelGap` | 2025/04/20/tools-comp/script.js:182-187 | In the else branch an empty reel 1 or 2 gets the clamped index 0, which is out of bounds. |
| `Controller.WinIffFirstReelWins` | 2025/04/20/tools-comp/script.js:150-215 | When both win symbols occur in reels 1 and 2, a spin wins exactly when reel 0 shows a win symbol. |
| `Controller.NonWinFirstReelLoses` | 2025/04/20/tools-comp/script.js:214-215 | A reel 0 without a win symbol never gives a win, whatever reels 1 and 2 hold. |
| `Controller.BeerExample` | 2025/04/20/tools-comp/script.js:138-166 | Worked example with the three-reel catalog and draw 0. All targets are 0 and the spin is a beer win. |
| `Controller.PlumExample` | 2025/04/20/tools-comp/script.js:167-191 | Worked example with the same catalog where reel 0 draws `梅子`. Reel 1 lands on `梅子`, and reel 2 falls back to `啤酒` at index 0. The spin is not a win. |

## Left out

- Fetching the file, JSON parsing and HTTP errors (lines 15-44). These are I/O. The model takes the parsed catalog as a `seq<seq<string>>`, so a non-array entry or a non-string label cannot occur in it.
- DOM construction, CSS transitions, the 4000 ms cubic-bezier easing and the `transitionend` listener. These are rendering. Only the integer offsets are modelled.
- The 50 ms reset timeout, the 150 ms per-reel stagger, `Promise.all` and the async handler. These are timing and concurrency. The button's disabled flag is UI state tied to them, and the model has no double-click guard.
- `Math.random` itself. Each draw is a bounded index parameter. No floats and no distribution are modelled.
- Confetti and the result text. These are presentation.
- Reels beyond index 2, and a reel count that differs from three. The reel count comes from the DOM, and the code assigns targets only to three reels.
- Controller.Spin: always returns a report once the guard passes. A spin of an empty reel to index 0 is not modelled as never finishing. Its animated offset equals the reset offset (`ReelMotion.SpinWithoutMovement`), so no transition runs. The `transitionend` listener, and with it `Promise.all` and the win check, then never complete. The model leaves this out because it depends on when the CSS engine fires transition events.
- Numbers are unbounded integers. The offsets in the source are doubles but stay far below 2^53, so they are exact.

## Findings

| source | as written | input that shows it | evidently intended | confidence | as-written member | corrected member |
|---|---|---|---|---|---|---|
| 2025/04/20/tools-comp/script.js:9 | The strip holds `numRepetitions = 10` copies of the reel. The momentum at line 90 goes up to 10 full sets, so the spin aims at row `10*len + idx`, which is past the last row `10*len - 1`. | Reel `["啤酒","梅子"]`, target 0, momentum draw giving 10: the strip has 20 rows and the spin lands on row 20. | Every landing row should exist and show the target label, so the snap at line 107 is seamless. That needs at least `MaxMomentum + 1 = 11` copies. | medium, not executed | `ReelMotion.StripOverrunAsWritten` | `ReelMotion.LandingRowShowsTarget` |
