/**
 * The save/load resource shared by the load window and the menu bar, and
 * the abstractions of the simulation engine they hand values to.
 *
 * The engine is external: a simulation is described only by where it came
 * from and by the loader steps applied to it, and a replay only by its last
 * recorded tick.
 */
module SaveLoad {
  import opened Wrappers

  datatype Replay = Replay(lastTickRecorded: nat)

  datatype SimOrigin = NewGame | FromReplay(replay: Replay)

  /** A simulation, known by its origin and the number of replay-loader steps applied to it. */
  datatype Simulation = Simulation(origin: SimOrigin, loaderSteps: nat)

  /** `Simulation::new(true)`: a fresh world. */
  function NewSimulation(): (r: Simulation)
    ensures r.origin == NewGame && r.loaderSteps == 0
  {
    Simulation(NewGame, 0)
  }

  /**
   * The replay loader: the replay it plays, the last tick it replayed
   * (`pastt`), the playback speed in ticks per frame and a one-shot request
   * to advance a number of ticks.
   */
  datatype ReplayLoader = ReplayLoader(replay: Replay, pastt: nat, speed: nat, advanceNTicks: nat)

  /**
   * The `SaveLoadState` resource: a loader and a simulation waiting to be
   * taken over by the game loop, the request to save, and whether a save is
   * running (an atomic flag the saving thread sets and clears).
   */
  class SaveLoadState {
    var pleaseLoad: Option<ReplayLoader>
    var pleaseLoadSim: Option<Simulation>
    var pleaseSave: bool
    var savingStatus: bool
  }
}
