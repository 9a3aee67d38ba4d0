/**
 * The save button and the exit dialog of the menu bar: the `ExitState`
 * machine (no exit, asking, saving before exit) together with the
 * `please_save` request it shares with the saving thread.
 *
 * Ending the process (`std::process::exit(0)`) is reported as `exit`; the
 * frame stops there. Writing the UI state to disk and the clock read for the
 * last save are reported as `saveToDisk`.
 */
module Menu {
  import opened SaveLoad

  datatype ExitState = NoExit | ExitAsk | Saving

  /** The clicks of one frame: the save button, the exit dialog's controls and the bar's exit buttons. */
  datatype MenuInput = MenuInput(
    saveClicked: bool,
    dialogSaveExitClicked: bool,
    exitNoSaveClicked: bool,
    cancelClicked: bool,
    dialogClosed: bool,
    closeAction: bool,
    exitClicked: bool,
    barSaveExitClicked: bool)

  datatype MenuState = MenuState(estate: ExitState, pleaseSave: bool)

  datatype FrameResult = FrameResult(state: MenuState, exit: bool, saveToDisk: bool)

  /** The bar's second part: the exit button while not exiting, save-and-exit while asking. */
  function BarButtons(m: MenuState, input: MenuInput): MenuState
  {
    match m.estate
    case NoExit => if input.exitClicked then m.(estate := ExitAsk) else m
    case ExitAsk => if input.barSaveExitClicked then MenuState(Saving, true) else m
    case Saving => m
  }

  /**
   * One frame of `save_window`, given whether a save is running. The save
   * button is shown only while no save runs. While saving, the process ends
   * as soon as no save is requested or running. While asking, the dialog
   * offers save-and-exit, exit without saving and cancel; closing the dialog
   * or the Close action return to not exiting. Then the bar offers exit (from
   * not exiting) or save-and-exit (while asking).
   */
  function SaveWindowFrame(s: MenuState, savingStatus: bool, input: MenuInput): (r: FrameResult)
    // The save button: hidden while saving, and a click requests a save.
    ensures r.saveToDisk <==> !savingStatus && input.saveClicked
    ensures r.saveToDisk ==> r.state.pleaseSave
    // This window never withdraws a save request.
    ensures s.pleaseSave ==> r.state.pleaseSave
    // Not exiting is left only through the exit button, which asks first.
    ensures s.estate == NoExit ==> !r.exit
    ensures s.estate == NoExit ==> (r.state.estate == NoExit <==> !input.exitClicked)
    ensures s.estate == NoExit && input.exitClicked ==> r.state.estate == ExitAsk
    // Saving is entered only from asking, and always together with a save request.
    ensures r.state.estate == Saving && s.estate != Saving ==> s.estate == ExitAsk && r.state.pleaseSave
    // Save-and-exit, in the dialog or on the bar, leads from asking to saving with a save requested.
    ensures s.estate == ExitAsk && (input.dialogSaveExitClicked || input.barSaveExitClicked)
            && !input.exitNoSaveClicked && !input.cancelClicked && !input.dialogClosed && !input.closeAction
            ==> !r.exit && r.state == MenuState(Saving, true)
    // Saving lasts until the dialog is closed or the process ends.
    ensures s.estate == Saving && !input.dialogClosed && !input.closeAction && !r.exit ==> r.state.estate == Saving
    // While saving, the process ends exactly when no save is requested or running.
    ensures s.estate == Saving ==> (r.exit <==> !savingStatus && !s.pleaseSave && !input.saveClicked)
    // From asking, the process ends only through "exit without saving".
    ensures s.estate == ExitAsk ==> (r.exit <==> input.exitNoSaveClicked)
    // Cancel, closing the dialog or the Close action end the dialog (unless the bar's exit asks again).
    ensures s.estate != NoExit && !r.exit && !input.exitClicked
            && (input.dialogClosed || input.closeAction || (s.estate == ExitAsk && input.cancelClicked))
            ==> r.state.estate == NoExit
  {
    var d := SaveAndDialog(s, savingStatus, input);
    if d.exit then d else d.(state := BarButtons(d.state, input))
  }

  /**
   * The save button and, while asking or saving, the exit dialog: the first
   * part of a frame, which may end the process.
   */
  function SaveAndDialog(s: MenuState, savingStatus: bool, input: MenuInput): FrameResult
  {
    var saveToDisk := !savingStatus && input.saveClicked;
    var requested := s.pleaseSave || saveToDisk;
    match s.estate
    case NoExit =>
      FrameResult(MenuState(NoExit, requested), false, saveToDisk)
    case Saving =>
      if !requested && !savingStatus then FrameResult(MenuState(Saving, requested), true, saveToDisk)
      else
        var estate := if input.dialogClosed || input.closeAction then NoExit else Saving;
        FrameResult(MenuState(estate, requested), false, saveToDisk)
    case ExitAsk =>
      var m := if input.dialogSaveExitClicked then MenuState(Saving, true) else MenuState(ExitAsk, requested);
      if input.exitNoSaveClicked then FrameResult(m, true, saveToDisk)
      else
        var estate := if input.cancelClicked || input.dialogClosed || input.closeAction then NoExit else m.estate;
        FrameResult(m.(estate := estate), false, saveToDisk)
  }

  /** The `ExitState` resource. */
  class ExitMenu {
    var estate: ExitState

    /** One frame of the save button and exit dialog, step by step as the window runs it. */
    method SaveWindow(sls: SaveLoadState, input: MenuInput) returns (exit: bool, saveToDisk: bool)
      modifies this, sls
      ensures FrameResult(MenuState(estate, sls.pleaseSave), exit, saveToDisk)
              == SaveWindowFrame(MenuState(old(estate), old(sls.pleaseSave)), old(sls.savingStatus), input)
      ensures sls.savingStatus == old(sls.savingStatus)
      ensures sls.pleaseLoad == old(sls.pleaseLoad) && sls.pleaseLoadSim == old(sls.pleaseLoadSim)
    {
      exit, saveToDisk := Dialog(sls, input);
      if exit {
        return;
      }
      match estate {
        case NoExit =>
          if input.exitClicked {
            estate := ExitAsk;
          }
        case ExitAsk =>
          if input.barSaveExitClicked {
            sls.pleaseSave := true;
            estate := Saving;
          }
        case Saving =>
      }
    }

    /** The save button, then the first `match` on the exit state: the dialog. */
    method Dialog(sls: SaveLoadState, input: MenuInput) returns (exit: bool, saveToDisk: bool)
      modifies this, sls
      ensures FrameResult(MenuState(estate, sls.pleaseSave), exit, saveToDisk)
              == SaveAndDialog(MenuState(old(estate), old(sls.pleaseSave)), old(sls.savingStatus), input)
      ensures sls.savingStatus == old(sls.savingStatus)
      ensures sls.pleaseLoad == old(sls.pleaseLoad) && sls.pleaseLoadSim == old(sls.pleaseLoadSim)
    {
      exit, saveToDisk := false, false;
      if !sls.savingStatus && input.saveClicked {
        sls.pleaseSave := true;
        saveToDisk := true;
      }

      if estate == ExitAsk || estate == Saving {
        var dialogOpen := !input.dialogClosed;
        if estate == Saving {
          if !sls.pleaseSave && !sls.savingStatus {
            exit := true;
            return;
          }
        } else {
          if input.dialogSaveExitClicked && estate == ExitAsk {
            sls.pleaseSave := true;
            estate := Saving;
          }
          if input.exitNoSaveClicked {
            exit := true;
            return;
          }
          if input.cancelClicked {
            estate := NoExit;
          }
        }
        if !dialogOpen {
          estate := NoExit;
        }
        if input.closeAction {
          estate := NoExit;
        }
      }
    }
  }
}
