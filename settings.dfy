/**
 * The settings window: the auto-save interval, the persisted `Settings`
 * record with its defaults, and the frame step that applies the widgets'
 * edits and writes the settings out only when they changed.
 *
 * `f32` fields are modelled as `real`; the widgets that edit them (drag
 * values) are external, so their outcome is given as the new value.
 */
module SettingsWindow {
  import opened Wrappers
  import opened Numerics
  import opened Localisation

  datatype AutoSaveEvery = Never | OneMinute | FiveMinutes

  /** The `#[repr(u8)]` discriminant, used as the combo box index. */
  function AutoSaveToU8(a: AutoSaveEvery): u8
  {
    match a
    case Never => 0
    case OneMinute => 1
    case FiveMinutes => 2
  }

  /** `From<u8>`: 0, 1 and 2 name the three intervals; any other byte is `Never`. */
  function AutoSaveFromU8(v: u8): (r: AutoSaveEvery)
    ensures v == 1 <==> r == OneMinute
    ensures v == 2 <==> r == FiveMinutes
    ensures v != 1 && v != 2 <==> r == Never
  {
    match v
    case 0 => Never
    case 1 => OneMinute
    case 2 => FiveMinutes
    case _ => Never
  }

  /** The interval in seconds (`Option<Duration>`); `Never` has none. */
  function AutoSaveSeconds(a: AutoSaveEvery): (r: Option<nat>)
    ensures r.None? <==> a == Never
  {
    match a
    case Never => None
    case OneMinute => Some(60)
    case FiveMinutes => Some(5 * 60)
  }

  /** The interval's label (`AsRef<str>`). */
  function AutoSaveLabel(a: AutoSaveEvery): string
  {
    match a
    case Never => "Never"
    case OneMinute => "Minute"
    case FiveMinutes => "Five Minutes"
  }

  lemma AutoSaveRoundTrip(a: AutoSaveEvery)
    ensures AutoSaveFromU8(AutoSaveToU8(a)) == a
    ensures AutoSaveToU8(a) <= 2
  {
  }

  /** The interval conversions tell the three intervals apart, and a minute is shorter than five. */
  lemma AutoSaveConversionsInjective(a: AutoSaveEvery, b: AutoSaveEvery)
    requires a != b
    ensures AutoSaveSeconds(a) != AutoSaveSeconds(b)
    ensures AutoSaveLabel(a) != AutoSaveLabel(b)
    ensures AutoSaveSeconds(OneMinute).value < AutoSaveSeconds(FiveMinutes).value
  {
  }

  /** The graphics part of the settings that this window edits (`GfxSettings`). */
  datatype GfxSettings = GfxSettings(
    fullscreen: bool,
    terrainGrid: bool,
    fog: bool,
    ssao: bool,
    msaa: bool,
    vsync: bool,
    parallelRender: bool,
    shadows: u8)

  datatype Settings = Settings(
    cameraBorderMove: bool,
    cameraSmooth: bool,
    cameraSmoothTightness: real,
    cameraFov: real,
    gfx: GfxSettings,
    guiScale: real,
    language: Language,
    lowDpiMode: bool,
    masterVolumePercent: real,
    musicVolumePercent: real,
    effectsVolumePercent: real,
    uiVolumePercent: real,
    timeWarp: u32,
    autoSaveEvery: AutoSaveEvery)

  /** `Settings::default`, given the engine's `GfxSettings::default`. */
  function DefaultSettings(gfxDefault: GfxSettings): (r: Settings)
    ensures r.timeWarp == 1 && r.autoSaveEvery == FiveMinutes
    ensures r.language == English && !r.lowDpiMode && r.cameraSmooth && !r.cameraBorderMove
    ensures r.masterVolumePercent == r.musicVolumePercent == r.effectsVolumePercent == r.uiVolumePercent == 100.0
    ensures r.gfx == gfxDefault
  {
    Settings(
      cameraBorderMove := false,
      cameraSmooth := true,
      cameraSmoothTightness := 1.0,
      cameraFov := 60.0,
      gfx := gfxDefault,
      guiScale := 1.0,
      language := English,
      lowDpiMode := false,
      masterVolumePercent := 100.0,
      musicVolumePercent := 100.0,
      effectsVolumePercent := 100.0,
      uiVolumePercent := 100.0,
      timeWarp := 1,
      autoSaveEvery := FiveMinutes)
  }

  /** What is written to disk: every field except `time_warp` (`#[serde(skip)]`). */
  datatype PersistedSettings = PersistedSettings(
    cameraBorderMove: bool,
    cameraSmooth: bool,
    cameraSmoothTightness: real,
    cameraFov: real,
    gfx: GfxSettings,
    guiScale: real,
    language: Language,
    lowDpiMode: bool,
    masterVolumePercent: real,
    musicVolumePercent: real,
    effectsVolumePercent: real,
    uiVolumePercent: real,
    autoSaveEvery: AutoSaveEvery)

  function Persist(s: Settings): PersistedSettings
  {
    PersistedSettings(s.cameraBorderMove, s.cameraSmooth, s.cameraSmoothTightness, s.cameraFov,
      s.gfx, s.guiScale, s.language, s.lowDpiMode, s.masterVolumePercent, s.musicVolumePercent,
      s.effectsVolumePercent, s.uiVolumePercent, s.autoSaveEvery)
  }

  /** Reading back: the skipped `time_warp` takes its value from the default (`#[serde(default)]`). */
  function Restore(p: PersistedSettings, gfxDefault: GfxSettings): Settings
  {
    Settings(p.cameraBorderMove, p.cameraSmooth, p.cameraSmoothTightness, p.cameraFov,
      p.gfx, p.guiScale, p.language, p.lowDpiMode, p.masterVolumePercent, p.musicVolumePercent,
      p.effectsVolumePercent, p.uiVolumePercent, DefaultSettings(gfxDefault).timeWarp, p.autoSaveEvery)
  }

  /** Saving and loading keeps every field except the time warp, which comes back as 1. */
  lemma PersistRoundTrip(s: Settings, gfxDefault: GfxSettings)
    ensures Restore(Persist(s), gfxDefault) == s.(timeWarp := 1)
    ensures Persist(s) == Persist(s.(timeWarp := 1))
  {
  }

  /**
   * What the user did in one frame of the settings window: a combo-box pick
   * (the picked index), checkbox clicks, the drag widgets' new values and the
   * language buttons.
   */
  datatype SettingsInput = SettingsInput(
    autoSavePick: Option<u8>,
    toggleBorderMove: bool,
    toggleSmooth: bool,
    tightnessDrag: Option<real>,
    fovDrag: Option<real>,
    toggleFullscreen: bool,
    toggleLowDpi: bool,
    toggleTerrainGrid: bool,
    toggleFog: bool,
    toggleSsao: bool,
    toggleMsaa: bool,
    toggleVsync: bool,
    toggleParallelRender: bool,
    shadowsPick: Option<u8>,
    guiScaleDrag: Option<real>,
    masterDrag: Option<real>,
    musicDrag: Option<real>,
    effectsDrag: Option<real>,
    uiDrag: Option<real>,
    englishClicked: bool,
    russianClicked: bool)

  /** A frame in which the user did nothing. */
  function Idle(): SettingsInput
  {
    SettingsInput(None, false, false, None, None, false, false, false, false, false, false,
      false, false, None, None, None, None, None, None, false, false)
  }

  function Toggled(b: bool, clicked: bool): bool
  {
    if clicked then !b else b
  }

  /**
   * The settings after one frame of edits. The smoothness tightness is only
   * offered while smoothing is on (after that frame's checkbox), and the
   * Russian button comes after the English one.
   */
  function ApplyInput(s: Settings, i: SettingsInput): (r: Settings)
    ensures r.timeWarp == s.timeWarp
    ensures i.autoSavePick.Some? ==> r.autoSaveEvery == AutoSaveFromU8(i.autoSavePick.value)
    ensures i.autoSavePick.None? ==> r.autoSaveEvery == s.autoSaveEvery
    ensures r.language == (if i.russianClicked then Russian else if i.englishClicked then English else s.language)
    ensures r.cameraSmoothTightness != s.cameraSmoothTightness ==> r.cameraSmooth && i.tightnessDrag.Some?
  {
    var smooth := Toggled(s.cameraSmooth, i.toggleSmooth);
    var gfx := s.gfx.(
      fullscreen := Toggled(s.gfx.fullscreen, i.toggleFullscreen),
      terrainGrid := Toggled(s.gfx.terrainGrid, i.toggleTerrainGrid),
      fog := Toggled(s.gfx.fog, i.toggleFog),
      ssao := Toggled(s.gfx.ssao, i.toggleSsao),
      msaa := Toggled(s.gfx.msaa, i.toggleMsaa),
      vsync := Toggled(s.gfx.vsync, i.toggleVsync),
      parallelRender := Toggled(s.gfx.parallelRender, i.toggleParallelRender),
      shadows := i.shadowsPick.UnwrapOr(s.gfx.shadows));
    s.(
      autoSaveEvery := if i.autoSavePick.Some? then AutoSaveFromU8(i.autoSavePick.value) else s.autoSaveEvery,
      cameraBorderMove := Toggled(s.cameraBorderMove, i.toggleBorderMove),
      cameraSmooth := smooth,
      cameraSmoothTightness := if smooth then i.tightnessDrag.UnwrapOr(s.cameraSmoothTightness) else s.cameraSmoothTightness,
      cameraFov := i.fovDrag.UnwrapOr(s.cameraFov),
      lowDpiMode := Toggled(s.lowDpiMode, i.toggleLowDpi),
      gfx := gfx,
      guiScale := i.guiScaleDrag.UnwrapOr(s.guiScale),
      masterVolumePercent := i.masterDrag.UnwrapOr(s.masterVolumePercent),
      musicVolumePercent := i.musicDrag.UnwrapOr(s.musicVolumePercent),
      effectsVolumePercent := i.effectsDrag.UnwrapOr(s.effectsVolumePercent),
      uiVolumePercent := i.uiDrag.UnwrapOr(s.uiVolumePercent),
      language := if i.russianClicked then Russian else if i.englishClicked then English else s.language)
  }

  /** A frame without edits changes nothing, so nothing is written. */
  lemma IdleFrameChangesNothing(s: Settings)
    ensures ApplyInput(s, Idle()) == s
  {
  }

  /** A frame whose only edits are checkbox clicks (any number of them). */
  predicate OnlyCheckboxes(i: SettingsInput)
  {
    i.autoSavePick.None? && i.tightnessDrag.None? && i.fovDrag.None? && i.shadowsPick.None?
    && i.guiScaleDrag.None? && i.masterDrag.None? && i.musicDrag.None? && i.effectsDrag.None?
    && i.uiDrag.None? && !i.englishClicked && !i.russianClicked
  }

  /** Clicking the same checkboxes in two frames restores the settings. */
  lemma ToggleTwiceRestores(s: Settings, i: SettingsInput)
    requires OnlyCheckboxes(i)
    ensures ApplyInput(ApplyInput(s, i), i) == s
  {
  }

  /**
   * The `Settings` resource and the settings file. `written` is the sequence
   * of records `save_silent` wrote, oldest first.
   */
  class SettingsResource {
    var settings: Settings
    var written: seq<PersistedSettings>

    constructor (initial: Settings)
      ensures settings == initial && written == []
    {
      settings := initial;
      written := [];
    }

    /** One frame of the window: snapshot, edit in place, write out only when changed. */
    method SettingsFrame(input: SettingsInput)
      modifies this
      ensures settings == ApplyInput(old(settings), input)
      ensures settings != old(settings) ==> written == old(written) + [Persist(settings)]
      ensures settings == old(settings) ==> written == old(written)
    {
      var before := settings;
      var autoSave := settings.autoSaveEvery;
      if input.autoSavePick.Some? {
        autoSave := AutoSaveFromU8(input.autoSavePick.value);
      }
      var smooth := Toggled(settings.cameraSmooth, input.toggleSmooth);
      var tightness := settings.cameraSmoothTightness;
      if smooth && input.tightnessDrag.Some? {
        tightness := input.tightnessDrag.value;
      }
      var gfx := settings.gfx.(
        fullscreen := Toggled(settings.gfx.fullscreen, input.toggleFullscreen),
        terrainGrid := Toggled(settings.gfx.terrainGrid, input.toggleTerrainGrid),
        fog := Toggled(settings.gfx.fog, input.toggleFog),
        ssao := Toggled(settings.gfx.ssao, input.toggleSsao),
        msaa := Toggled(settings.gfx.msaa, input.toggleMsaa),
        vsync := Toggled(settings.gfx.vsync, input.toggleVsync),
        parallelRender := Toggled(settings.gfx.parallelRender, input.toggleParallelRender));
      if input.shadowsPick.Some? {
        gfx := gfx.(shadows := input.shadowsPick.value);
      }
      var language := settings.language;
      if input.englishClicked {
        language := English;
      }
      if input.russianClicked {
        language := Russian;
      }
      settings := settings.(
        autoSaveEvery := autoSave,
        cameraBorderMove := Toggled(settings.cameraBorderMove, input.toggleBorderMove),
        cameraSmooth := smooth,
        cameraSmoothTightness := tightness,
        cameraFov := input.fovDrag.UnwrapOr(settings.cameraFov),
        lowDpiMode := Toggled(settings.lowDpiMode, input.toggleLowDpi),
        gfx := gfx,
        guiScale := input.guiScaleDrag.UnwrapOr(settings.guiScale),
        masterVolumePercent := input.masterDrag.UnwrapOr(settings.masterVolumePercent),
        musicVolumePercent := input.musicDrag.UnwrapOr(settings.musicVolumePercent),
        effectsVolumePercent := input.effectsDrag.UnwrapOr(settings.effectsVolumePercent),
        uiVolumePercent := input.uiDrag.UnwrapOr(settings.uiVolumePercent),
        language := language);
      if settings != before {
        written := written + [Persist(settings)];
      }
    }
  }
}
