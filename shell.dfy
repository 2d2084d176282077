/** The lock button's handler, which ties the playback flags to the grid:
    stop every loop, then re-randomise the grid. */
module Shell {
  import opened Palette
  import Grid
  import opened Playback
  import UnlockGate

  /** The lock button: reset the flags and re-randomise the `cellCount` grid
      cells. The unlock gate's pending input is left as it was. */
  method LockButton(session: Session, gate: UnlockGate.Gate, cellCount: nat, draws: seq<nat>, js: seq<nat>)
      returns (grid: seq<string>)
    requires session.Valid()
    requires Grid.ValidDraws(cellCount, draws) && Grid.ValidChoices(js, Grid.PoolSize(cellCount))
    modifies session
    ensures session.Valid() && session.history == old(session.history) + [Event.Lock]
    ensures forall m :: !Guard(session.State(), m)
    ensures gate.input == old(gate.input)
    ensures |grid| == cellCount && InPalette(grid)
    ensures (forall c :: c in COLORS ==> c in grid) <==> cellCount >= |COLORS|
  {
    session.Lock();
    grid := Grid.RandomizeGrid(cellCount, draws, js);
  }
}
