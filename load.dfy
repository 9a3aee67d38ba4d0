/**
 * The load window: start a new game, load the recorded replay of the world
 * and, while a replay is loading, show its progress and take the playback
 * commands.
 *
 * Reading the replay from disk, binding it to a simulation
 * (`Simulation::from_replay`) and the loader's tick step (`advance_tick`)
 * are external; they are given as `replayOnDisk`, `bind` and `advance`.
 */
module LoadWindow {
  import opened Wrappers
  import opened Text
  import opened SaveLoad

  /** The playback buttons: pause, play, fast, maximum, and the four step buttons. */
  datatype SpeedButton = Pause | Play | Fast | Max | Step(ticks: nat)

  /** The playback speed, in ticks per frame, that a button sets; a step leaves playback paused. */
  function SpeedOf(b: SpeedButton): nat
  {
    match b
    case Pause => 0
    case Play => 1
    case Fast => 100
    case Max => 10000
    case Step(_) => 0
  }

  /** One button press on the loader. */
  function Press(l: ReplayLoader, b: SpeedButton): (r: ReplayLoader)
    ensures r.speed == SpeedOf(b)
    ensures r.advanceNTicks == (if b.Step? then b.ticks else l.advanceNTicks)
    ensures r.replay == l.replay && r.pastt == l.pastt
  {
    match b
    case Step(n) => l.(speed := 0, advanceNTicks := n)
    case _ => l.(speed := SpeedOf(b))
  }

  function PressIf(l: ReplayLoader, b: SpeedButton, clicked: set<SpeedButton>): ReplayLoader
  {
    if b in clicked then Press(l, b) else l
  }

  predicate StepClicked(clicked: set<SpeedButton>)
  {
    Step(1) in clicked || Step(10) in clicked || Step(100) in clicked || Step(1000) in clicked
  }

  predicate SpeedClicked(clicked: set<SpeedButton>)
  {
    Pause in clicked || Play in clicked || Fast in clicked || Max in clicked
  }

  /**
   * The loader after the buttons of one frame, handled in the order they are
   * shown (`||`, `>`, `>>>`, `max`, `1`, `10`, `100`, `1000`): a step button
   * pauses and requests its step (the largest clicked step wins); otherwise
   * the last clicked speed button decides the speed.
   */
  function ApplyControls(l: ReplayLoader, clicked: set<SpeedButton>): (r: ReplayLoader)
    ensures r.replay == l.replay && r.pastt == l.pastt
    ensures StepClicked(clicked) ==> r.speed == 0
    ensures StepClicked(clicked) ==>
      r.advanceNTicks == (if Step(1000) in clicked then 1000 else if Step(100) in clicked then 100
                          else if Step(10) in clicked then 10 else 1)
    ensures !StepClicked(clicked) ==> r.advanceNTicks == l.advanceNTicks
    ensures !StepClicked(clicked) && SpeedClicked(clicked) ==>
      r.speed == (if Max in clicked then 10000 else if Fast in clicked then 100
                  else if Play in clicked then 1 else 0)
    ensures !StepClicked(clicked) && !SpeedClicked(clicked) ==> r == l
  {
    var l := PressIf(l, Pause, clicked);
    var l := PressIf(l, Play, clicked);
    var l := PressIf(l, Fast, clicked);
    var l := PressIf(l, Max, clicked);
    var l := PressIf(l, Step(1), clicked);
    var l := PressIf(l, Step(10), clicked);
    var l := PressIf(l, Step(100), clicked);
    PressIf(l, Step(1000), clicked)
  }

  /** The arguments of the "loading replay" text: ticks done and ticks in the replay, in decimal. */
  function ProgressArgs(l: ReplayLoader): (r: seq<(string, string)>)
    ensures |r| == 2 && r[0].0 == "done" && r[1].0 == "total"
    ensures forall k :: 0 <= k < |r[0].1| ==> '0' <= r[0].1[k] <= '9'
    ensures forall k :: 0 <= k < |r[1].1| ==> '0' <= r[1].1[k] <= '9'
    ensures ParseDecimal(r[0].1) == l.pastt && ParseDecimal(r[1].1) == l.replay.lastTickRecorded
  {
    DecimalRoundTrip(l.pastt);
    DecimalRoundTrip(l.replay.lastTickRecorded);
    [("done", Decimal(l.pastt)), ("total", Decimal(l.replay.lastTickRecorded))]
  }

  /** What the user did in one frame of the load window, and what was on disk. */
  datatype LoadInput = LoadInput(
    newGameClicked: bool,
    loadClicked: bool,
    replayOnDisk: Option<Replay>,
    speedClicks: set<SpeedButton>)

  /**
   * The loader and simulation a successful load hands over: the replay bound
   * to a fresh simulation and advanced by exactly one loader step. `None`
   * when no load succeeded in this frame.
   */
  function Loaded(hasSave: bool, input: LoadInput,
                  bind: Replay -> (Simulation, ReplayLoader),
                  advance: ((Simulation, ReplayLoader)) -> (Simulation, ReplayLoader)): Option<(Simulation, ReplayLoader)>
  {
    if hasSave && input.loadClicked && input.replayOnDisk.Some? then
      Some(advance(bind(input.replayOnDisk.value)))
    else None
  }

  /** The row of playback buttons, handled one after the other as they are shown. */
  method ButtonRow(loader: ReplayLoader, clicked: set<SpeedButton>) returns (loading: ReplayLoader)
    ensures loading == ApplyControls(loader, clicked)
  {
    loading := loader;
    ghost var l0 := PressIf(loader, Pause, clicked);
    if Pause in clicked {
      loading := loading.(speed := 0);
    }
    assert loading == l0;
    ghost var l1 := PressIf(l0, Play, clicked);
    if Play in clicked {
      loading := loading.(speed := 1);
    }
    assert loading == l1;
    ghost var l2 := PressIf(l1, Fast, clicked);
    if Fast in clicked {
      loading := loading.(speed := 100);
    }
    assert loading == l2;
    ghost var l3 := PressIf(l2, Max, clicked);
    if Max in clicked {
      loading := loading.(speed := 10000);
    }
    assert loading == l3;
    ghost var l4 := PressIf(l3, Step(1), clicked);
    if Step(1) in clicked {
      loading := loading.(speed := 0, advanceNTicks := 1);
    }
    assert loading == l4;
    ghost var l5 := PressIf(l4, Step(10), clicked);
    if Step(10) in clicked {
      loading := loading.(speed := 0, advanceNTicks := 10);
    }
    assert loading == l5;
    ghost var l6 := PressIf(l5, Step(100), clicked);
    if Step(100) in clicked {
      loading := loading.(speed := 0, advanceNTicks := 100);
    }
    assert loading == l6;
    ghost var l7 := PressIf(l6, Step(1000), clicked);
    if Step(1000) in clicked {
      loading := loading.(speed := 0, advanceNTicks := 1000);
    }
    assert loading == l7;
  }

  class LoadState {
    var loadFail: string
    var hasSave: bool

    /** `LoadState::default`: no failure yet; loading is offered when the replay file exists. */
    constructor (replayFileExists: bool)
      ensures loadFail == [] && hasSave == replayFileExists
    {
      loadFail := [];
      hasSave := replayFileExists;
    }

    /**
     * One frame of the window. Returns the progress text arguments when a
     * loader is pending.
     */
    method LoadFrame(sls: SaveLoadState, input: LoadInput, failedLabel: string,
                     bind: Replay -> (Simulation, ReplayLoader),
                     advance: ((Simulation, ReplayLoader)) -> (Simulation, ReplayLoader))
      returns (progress: Option<seq<(string, string)>>)
      modifies this, sls
      ensures hasSave == old(hasSave)
      ensures sls.pleaseSave == old(sls.pleaseSave) && sls.savingStatus == old(sls.savingStatus)
      ensures var loaded := Loaded(hasSave, input, bind, advance);
        && (loaded.Some? ==> sls.pleaseLoadSim == Some(loaded.value.0))
        && (loaded.None? && input.newGameClicked ==> sls.pleaseLoadSim == Some(NewSimulation()))
        && (loaded.None? && !input.newGameClicked ==> sls.pleaseLoadSim == old(sls.pleaseLoadSim))
      ensures var loaded := Loaded(hasSave, input, bind, advance);
        var held := if loaded.Some? then Some(loaded.value.1) else old(sls.pleaseLoad);
        && (held.Some? ==> sls.pleaseLoad == Some(ApplyControls(held.value, input.speedClicks)))
        && (held.None? ==> sls.pleaseLoad == None)
        && (held.Some? ==> progress == Some(ProgressArgs(held.value)))
        && (held.None? ==> progress == None)
      ensures loadFail == if hasSave && input.loadClicked && input.replayOnDisk.None? then failedLabel else old(loadFail)
    {
      if input.newGameClicked {
        sls.pleaseLoadSim := Some(NewSimulation());
      }
      if hasSave {
        if input.loadClicked {
          if input.replayOnDisk.Some? {
            var (sim, loader) := bind(input.replayOnDisk.value);
            var (sim', loader') := advance((sim, loader));
            sls.pleaseLoad := Some(loader');
            sls.pleaseLoadSim := Some(sim');
          } else {
            loadFail := failedLabel;
          }
        }
      }
      progress := None;
      if sls.pleaseLoad.Some? {
        var loading := sls.pleaseLoad.value;
        progress := Some(ProgressArgs(loading));
        loading := ButtonRow(loading, input.speedClicks);
        sls.pleaseLoad := Some(loading);
      }
    }
  }
}
