/**
 * The toast store: whether the toast is shown, its message, an optional undo
 * action, and a counter that tells a new toast from the previous one. The
 * undo callback is represented by an opaque token.
 */
module ToastStore {
  import opened Optional

  /** Stands for the `undoAction` callback; callbacks are compared by identity only. */
  type UndoAction = nat

  class Store {
    var visible: bool
    var message: string
    var undoAction: Option<UndoAction>
    var toastId: nat

    constructor()
      ensures !visible && message == "" && undoAction == None && toastId == 0
    {
      visible := false;
      message := "";
      undoAction := None;
      toastId := 0;
    }

    /** `showToast`: show the message with the given undo action (or none) under a new id. */
    method ShowToast(msg: string, undo: Option<UndoAction>)
      modifies this
      ensures visible && message == msg && undoAction == undo
      ensures toastId == old(toastId) + 1
    {
      visible := true;
      message := msg;
      undoAction := undo;
      toastId := toastId + 1;
    }

    /** `hideToast`: clear the toast; the id stays. */
    method HideToast()
      modifies this
      ensures !visible && message == "" && undoAction == None
      ensures toastId == old(toastId)
    {
      visible := false;
      message := "";
      undoAction := None;
    }
  }
}
