# Four algorithm exercises and a layered OFDM transmitter, in Dafny

This project models the core of a collection of algorithm exercises and one
small communications simulator:

- **Powers of two** (`power2n.dfy`, module `Power2`). There are four ways to
  compute 2^n: the power operator, two recursions, and a recursion memoised in
  a global list of 1000 slots. The list is a class over an array that the
  method fills in place. Python's negative list indexing and its `IndexError`
  are modelled.
- **Minimum edit distance** (`edit_distance.dfy`, module `EditDistance`).
  - The dynamic-programming table is filled in place. It is proved to compute
    `Lev`, a recursive definition of the distance.
  - `Lev` is in turn proved to be exactly the least number of insertions,
    deletions and replacements of any edit script.
  - Symmetry, bounds and the two worked examples are also proved.
- **Maze search** (`mouse_maze.dfy`, module `MouseMaze`). This is a
  depth-first search on a grid, with a visited grid updated in place.
  - A path that is returned is a simple walk from start to end through open
    cells.
  - `None` means the end cannot be reached.
  - The `IndexError` that the missing column bound can raise is an explicit
    outcome. It is proved impossible when the rightmost column is walled and
    the start cell is not in that column.
- **Protocol stack framing** (`ofdm_framing.dfy`, module `Framing`). Layers 5
  to 2 put the ASCII tags `SESSION|`, `TCP|`, `IP|` and `MAC|` in front of the
  payload. Each removal keeps what follows the first `|`.
- **OFDM physical layer** (`ofdm_phy.dfy`, module `OfdmPhy`). The steps are:
  1. Bytes are unpacked into bits, most significant bit first.
  2. Bit pairs are mapped to QPSK points.
  3. The points are cut into zero-padded blocks of 64 subcarriers.

  With the sender's step 6 corrected to read the demodulated bytes (as
  written it stops with `KeyError`; see Findings), the model proves that the
  stack loses nothing:
  - Unpacking, mapping and their inverses recover the frame.
  - Framing followed by unframing recovers the payload.

Behaviour the model follows exactly as the code has it:
- A header removal on input without `|` raises `IndexError`
  (`mid/ofdm.py:33`). It does not pass the input through.
- The transmitter's dictionary has no "data" entry, so the sender's step 6
  stops with `KeyError`; see Findings.
- The odd-length bit padding in `L1_ofdm` never fires, because the bit count
  is always 8 times the byte count. `L1Ofdm` states that its bits are exactly
  the unpacked bytes.

## Model

| member | source | states |
|---|---|---|
| Power2.Power2BIsExp | hw2/power2n.py:6-9 | adding two copies of the recursive call gives 2^n for every n >= 0 |
| Power2.Power2CIsExp | hw2/power2n.py:13-16 | doubling the recursive call gives 2^n for every n >= 0 |
| Power2.Power2Agree | hw2/power2n.py:2-16 | `power2na`, `power2nb` and `power2nc` agree on every n >= 0 |
| Power2.Pow2Table.constructor | hw2/power2n.py:19-21 | the list has 1000 slots; slot 0 holds 1, slot 1 holds 2, and all others are empty |
| Power2.Pow2Table.Power2D | hw2/power2n.py:23-28 | for -1000 <= n < 1000 the result is 2 to the power of n's slot (n + 1000 when n is negative), otherwise `IndexError`; afterwards every slot up to n's slot is filled, filled slots keep their values, slots above are untouched, and every filled slot k holds 2^k |
| Power2.Power2DHundred | hw2/power2n.py:31 | on a fresh list, `power2nd(100)` is 2^100 |
| EditDistance.Min3 | hw9/miniEditDistance.py:30-34 | the minimum of three values is at most each of them and equal to one of them |
| EditDistance.MinEditDistance | hw9/miniEditDistance.py:6-37 | the bottom-right cell of the filled table is the distance `Lev(word1, word2)` |
| EditDistance.FillRow | hw9/miniEditDistance.py:24-34 | from a correct previous row and first column, row i ends up holding the distance from the first i characters of word1 to each prefix of word2; other rows are untouched |
| EditDistance.LevStep | hw9/miniEditDistance.py:26-34 | the table's recurrence on prefixes holds for the distance: equal characters copy the diagonal, and otherwise it is 1 plus the minimum of the three neighbours |
| EditDistance.LevIdentity | hw9/miniEditDistance.py:15-20 | the boundary values: a string is at distance 0 from itself, and at its length from the empty string |
| EditDistance.LevBounds | hw9/miniEditDistance.py:2-5 | the distance is at least the difference of the lengths and at most the longer length |
| EditDistance.LevSymmetric | hw9/miniEditDistance.py:2-5 | the distance from a to b equals the distance from b to a |
| EditDistance.Script | hw9/miniEditDistance.py:2-5 | there is an edit script that turns a into b with exactly `Lev(a, b)` insertions, deletions and replacements |
| EditDistance.ScriptCostAtLeastLev | hw9/miniEditDistance.py:2-5 | every edit script that turns a into b makes at least `Lev(a, b)` edits |
| EditDistance.LevIsMinimumEdits | hw9/miniEditDistance.py:2-5 | `Lev(a, b)` is the least number of edits of any script turning a into b, and that number is reached |
| EditDistance.HorseToRos | hw9/miniEditDistance.py:41-45 | the distance from "horse" to "ros" is 3 |
| EditDistance.IntentionToExecution | hw9/miniEditDistance.py:47-48 | the distance from "intention" to "execution" is 5 |
| MouseMaze.Solve | hw7/mouse_maze.py:12-29 | cur becomes visited, and every cell newly visited besides cur is open and reachable from cur; a found path extends the given path to the end cell and is a simple walk through open cells; on `None`, cur is not the end, the end was not visited in this call, and every cell newly visited has all its open neighbours visited; on `None`, neither cur nor any cell newly visited lies in the last column, since the move right from there raises; an `IndexError` lies just right of the last column, in a row reachable from the start |
| MouseMaze.TryMove | hw7/mouse_maze.py:19-28 | one move of the loop: cells are newly visited only when the target is open, and each of them is open and reachable from the target; a found path extends the given path to the end cell as a simple walk; on `None` the target, if open, is visited afterwards, the end was not visited in this call, and every newly visited cell has all its open neighbours visited, no newly visited cell lies in the last column, and for the move right cur is not in the last column; an `IndexError` (a column equal to the width, which the guard does not exclude) lies just right of the last column in a reachable row |
| MouseMaze.Enter | hw7/mouse_maze.py:24-28 | the recursive call on an open, unvisited target: the target becomes visited, every newly visited cell is open and reachable from it, and the outcome of `solve` from the target is passed on with the same guarantees, including on `None` that no newly visited cell lies in the last column |
| MouseMaze.ClosedSetHoldsWalk | hw7/mouse_maze.py:19-29 | a set of cells that holds the start and has every open neighbour of its members inside holds every walk from the start; this is why `None` means unreachable |
| MouseMaze.Dfs | hw7/mouse_maze.py:3-30 | a returned path is a simple walk through open cells from start to end; `None` means no walk reaches the end and no walk reaches the last column (where the move right would raise); `IndexError` only arises just right of the grid, in a reachable row; with the last column walled and the start outside it, no `IndexError` arises |
| Framing.TagShape | mid/ofdm.py:29-51 | every layer's tag ends in the delimiter `\|` and holds no other delimiter |
| Framing.AddHeader | mid/ofdm.py:29-51 | L5, L4, L3 and L2: the tag followed by the unchanged payload |
| Framing.SplitOnce | mid/ofdm.py:32-33 | `split(b"\|", 1)`: the whole input when it has no delimiter, otherwise the delimiter-free part before the first delimiter and everything after it |
| Framing.SplitAtFirst | mid/ofdm.py:32-33 | a split happens at the first delimiter, whatever follows |
| Framing.RemoveHeader | mid/ofdm.py:32-54 | a removal succeeds exactly when the input holds a delimiter, and then keeps exactly what follows the first delimiter; otherwise it fails with `IndexError` |
| Framing.RemoveAnyHeader | mid/ofdm.py:32-54 | a removal strips any delimiter-free prefix and the delimiter after it, without checking the tag |
| Framing.RemoveAddHeader | mid/ofdm.py:29-54 | removal undoes adding a header, for every layer and every payload, including one that holds `\|` |
| Framing.UnframeFrame | mid/m.py:144-213 | removing the headers in the receiver's order (L2, L3, L4, L5) recovers the payload the sender framed with L5, L4, L3 and L2 |
| OfdmPhy.PackBitsOf | mid/ofdm.py:58 | packing the eight unpacked bits of a byte gives the byte back |
| OfdmPhy.BitsOfPack | mid/ofdm.py:58 | unpacking a packed group of eight bits gives the bits back |
| OfdmPhy.UnpackBits | mid/ofdm.py:58 | a frame of d bytes unpacks to 8 * d bits |
| OfdmPhy.UnpackBitsAt | mid/ofdm.py:58 | bit k of byte i, most significant first, is at position 8 * i + k |
| OfdmPhy.PackUnpack | mid/ofdm.py:58 | unpacking loses nothing: packing the bits gives the bytes back |
| OfdmPhy.QpskMap | mid/ofdm.py:5-10 | the real part is +1 or -1 according to the second bit, and the imaginary part according to the first |
| OfdmPhy.DemapMap | mid/ofdm.py:5-10 | the mapping table is invertible: the signs of a point give back its bit pair |
| OfdmPhy.QpskGray | mid/ofdm.py:5-10 | the table is Gray-coded: two points share a real (imaginary) part exactly when their second (first) bits agree |
| OfdmPhy.DemodulateModulate | mid/ofdm.py:62-65 | demapping the points of an even-length bit string gives the bits back |
| OfdmPhy.MapPairs | mid/ofdm.py:62-65 | the loop over bit pairs yields point j as the table entry for bits 2j and 2j+1 |
| OfdmPhy.CutBlocks | mid/ofdm.py:67-73 | the block loop yields ceil(count / 64) blocks of 64 points, which laid end to end are the points followed by zeros only |
| OfdmPhy.L1Ofdm | mid/ofdm.py:57-79 | an empty frame fails with `ValueError`, and any other frame is transmitted: its bits are the unpacked bytes with no pad bit, its constellation is their QPSK mapping, and its blocks (ceil(d / 16) of them for d bytes) hold the constellation and then zeros |
| OfdmPhy.Entries | mid/ofdm.py:75-79 | a lookup in the transmitter's dictionary finds an entry exactly for the keys "bits", "constellation" and "tx" |
| OfdmPhy.IntendedEntriesHoldFrame | mid/m.py:166 | in the dictionary the sender expects, "data" holds exactly the frame the transmitter was given, recovered from its constellation |
| OfdmPhy.ReadData | mid/m.py:174 | step 6 as written: reading "data" from any transmitted result fails with `KeyError`, and an empty frame fails earlier with the transmitter's `ValueError` |
| OfdmPhy.ReadDataIntendedFrame | mid/m.py:166-174 | step 6 as intended, on the result the transmitter gives for a frame: reading "data" delivers exactly that frame, with no `KeyError` |
| OfdmPhy.SenderStep6AsWritten | mid/m.py:166-174 | for every payload, running the transmitter on the frame L5 to L2 built and reading "data" ends in `KeyError` |
| OfdmPhy.SenderStep6Intended | mid/m.py:166-174 | for every payload, the intended step 6 delivers exactly the frame, and unframing it gives the payload back |
| OfdmPhy.ReceivedBytesRecovers | mid/m.py:166-174 | demapping and packing the constellation of any frame gives the frame back |
| OfdmPhy.StackRoundTrip | mid/m.py:144-213 | with step 6 corrected to read the demodulated bytes, framing, modulation, demodulation and unframing in the program's order recover the payload (as written, step 6 stops with `KeyError`) |

## Left out

- L7 and L6 (`mid/ofdm.py:12-26`): UTF-8 text encoding and Fernet encryption with a randomly generated key. They are cryptography and I/O, and the model starts from the bytes L6 produces.
- The inverse FFT of each block and the concatenation into "tx" (`mid/ofdm.py:73`, `78`): these are floating-point complex arithmetic. The model stops at the zero-padded blocks. The `ValueError` of concatenating no blocks is kept.
- Constellation points are integer pairs. This is exact, since the table holds only +1 and -1 parts and the padding holds 0.
- The graphical user interface of `mid/m.py` is not modelled: windows, drawing, timers and the visible payload. Of that file, only the order of the layer calls is modelled.
- There is no channel or noise in the program, so none is modelled. `ReceivedBytes` demaps the sent constellation directly.
- Power2.Power2BIsExp: `power2na`, `power2nb` and `power2nc` are modelled for n >= 0 only. A negative n gives a float for the power operator and unbounded recursion for the other two.
- Power2.Pow2Table.Power2D: Python's recursion depth limit is not modelled. Each call on a fresh list recurses once per empty slot below n's slot.
- MouseMaze.Dfs: the start and the end cell are parameters of `Dfs`, and the end cell is also a parameter of `Solve`. In the source they are the globals `start_pos` and `end_pos`, read at lines 6, 16 and 30 and set at lines 72-73.
- MouseMaze.Dfs: the start must lie inside the grid. numpy's wrap-around for a negative start index is not modelled.
- MouseMaze.Dfs: the recursion depth limit is not modelled.
- The maze printing (`hw7/mouse_maze.py:33-57`) is left out, and so is the concrete maze at lines 60-73. `Dfs`'s last guarantee covers that maze: its rightmost column is walled, and its start is not in that column.

## Findings

| source | as written | input that shows it | evidently intended | confidence | as-written member | corrected member |
|---|---|---|---|---|---|---|
| mid/m.py:174 | the sender's step 6 reads `result["data"]`, but `L1_ofdm` returns only "bits", "constellation" and "tx" (`mid/ofdm.py:75-79`), so the lookup raises `KeyError` | any message: every frame reaches step 6 non-empty | the comment at line 166 says "data" holds the demodulated bytes, so it should be the constellation demapped and packed back into the frame | high, not executed | OfdmPhy.SenderStep6AsWritten | OfdmPhy.SenderStep6Intended |
