/** The notification state of frontend/src/hooks/useNotification.js: one record that the show
    functions replace and the hide function updates. The display and its timer are not
    modelled. */
module Notification {

  datatype Kind = Success | Error | Warning | Info

  /** The state record. */
  datatype Notice = Notice(isVisible: bool, kind: Kind, title: string, message: string)

  /** The state a fresh hook starts with: hidden, of kind info, with no text. */
  const INITIAL: Notice := Notice(false, Info, "", "")

  /** The record `hideNotification` writes: the previous one, hidden. */
  function Hidden(n: Notice): (r: Notice)
    ensures !r.isVisible && r.kind == n.kind && r.title == n.title && r.message == n.message
  {
    n.(isVisible := false)
  }

  /** Hiding twice is hiding once. */
  lemma HideIdempotent(n: Notice)
    ensures Hidden(Hidden(n)) == Hidden(n)
  {
  }

  /** Showing and then hiding keeps the text that was shown, so a closing notice does not
      lose its content while it fades. */
  lemma ShowThenHide(kind: Kind, title: string, message: string)
    ensures Hidden(Notice(true, kind, title, message)) == Notice(false, kind, title, message)
  {
  }

  /** The hook: its `notification` state and the functions that set it. */
  class NotificationHook {
    var notification: Notice

    /** `useState({...})`. */
    constructor ()
      ensures notification == INITIAL
    {
      notification := INITIAL;
    }

    /** `showNotification`: the whole record is replaced and shown. */
    method ShowNotification(kind: Kind, title: string, message: string)
      modifies this
      ensures notification == Notice(true, kind, title, message)
    {
      notification := Notice(true, kind, title, message);
    }

    /** `hideNotification`: only the visibility changes. */
    method HideNotification()
      modifies this
      ensures notification == Hidden(old(notification))
    {
      notification := notification.(isVisible := false);
    }

    method ShowSuccess(title: string, message: string)
      modifies this
      ensures notification == Notice(true, Success, title, message)
    {
      ShowNotification(Success, title, message);
    }

    method ShowError(title: string, message: string)
      modifies this
      ensures notification == Notice(true, Error, title, message)
    {
      ShowNotification(Error, title, message);
    }

    method ShowWarning(title: string, message: string)
      modifies this
      ensures notification == Notice(true, Warning, title, message)
    {
      ShowNotification(Warning, title, message);
    }

    method ShowInfo(title: string, message: string)
      modifies this
      ensures notification == Notice(true, Info, title, message)
    {
      ShowNotification(Info, title, message);
    }
  }
}
