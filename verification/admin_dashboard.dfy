/** The moderator's dashboard: the user lists it derives, the checks it
    runs before approving a user or resetting a password, and the
    chat-review panel with its contacts, days and messages steps, its
    context menu, and selection mode for the bulk soft-delete. HTTP answers
    and confirmation dialogs arrive as method parameters. */
module AdminDashboard {
  import opened Common
  import opened Models
  import opened Store
  import opened Validation
  import AdminRoutes

  // ---------------------------------------------------------------------
  // User lists

  function IsHighRisk(row: AdminRoutes.UserRow): bool {
    row.flaggedCount > 3
  }

  function IsPending(row: AdminRoutes.UserRow): bool {
    row.user.status == Pending
  }

  function IsActive(row: AdminRoutes.UserRow): bool {
    row.user.status == Approved && row.user.role != AdminRole
  }

  /** The high-risk alert: users with more than three flagged messages. */
  function HighRisk(rows: seq<AdminRoutes.UserRow>): (r: seq<AdminRoutes.UserRow>)
    ensures forall x :: x in r <==> x in rows && x.flaggedCount > 3
  {
    Filter(rows, IsHighRisk)
  }

  /** The pending tab: users awaiting approval. */
  function PendingUsers(rows: seq<AdminRoutes.UserRow>): (r: seq<AdminRoutes.UserRow>)
    ensures forall x :: x in r <==> x in rows && x.user.status == Pending
  {
    Filter(rows, IsPending)
  }

  /** The active tab: approved users who are not admins. */
  function ActiveUsers(rows: seq<AdminRoutes.UserRow>): (r: seq<AdminRoutes.UserRow>)
    ensures forall x :: x in r <==> x in rows && x.user.status == Approved && x.user.role != AdminRole
  {
    Filter(rows, IsActive)
  }

  /** No user is on both tabs, and an approved admin is on neither. */
  lemma TabsDisjoint(rows: seq<AdminRoutes.UserRow>, x: AdminRoutes.UserRow)
    ensures !(x in PendingUsers(rows) && x in ActiveUsers(rows))
    ensures x.user.role == AdminRole && x.user.status == Approved ==> x !in PendingUsers(rows) && x !in ActiveUsers(rows)
  {
  }

  // ---------------------------------------------------------------------
  // Approve and reset checks

  const RuleAlert := "Password must be at least 8 characters long and include an uppercase letter, a number, and a special character"

  /** The alert `handleApprove` raises instead of sending, if any: missing
      fields first, then a confirmation mismatch, then the password rule. */
  function ApproveCheck(password: Option<string>, confirm: Option<string>, loginId: Option<string>): (r: Option<string>)
    ensures Falsy(password) || Falsy(loginId) ==> r == Some("Please enter both Login ID and Password")
    ensures !Falsy(password) && !Falsy(loginId) && password != confirm ==> r == Some("Passwords do not match")
    ensures !Falsy(password) && !Falsy(loginId) && password == confirm && !PasswordOk(password.value)
            ==> r == Some(RuleAlert)
    ensures r.None? <==> !Falsy(password) && !Falsy(loginId) && password == confirm && PasswordOk(password.value)
  {
    if Falsy(password) || Falsy(loginId) then Some("Please enter both Login ID and Password")
    else if password != confirm then Some("Passwords do not match")
    else if !PasswordOk(password.value) then Some(RuleAlert)
    else None
  }

  /** A request the dashboard lets through is never refused by the
      server's missing-field guard. */
  lemma ApproveCheckMeetsRoute(users: seq<User>, userId: UserId, password: Option<string>, confirm: Option<string>,
                               loginId: Option<string>, hash: string)
    requires ApproveCheck(password, confirm, loginId).None?
    ensures AdminRoutes.ApproveRoute(users, AdminRoutes.ApproveRequest(Some(userId), loginId, password), hash).0
            != Fail(400, "Missing userId, loginId or password")
  {
  }

  /** The alert `handleReset` raises instead of sending, if any. */
  function ResetCheck(newPassword: Option<string>, confirm: Option<string>): (r: Option<string>)
    ensures Falsy(newPassword) ==> r == Some("Please enter a new password")
    ensures !Falsy(newPassword) && newPassword != confirm ==> r == Some("Passwords do not match")
    ensures !Falsy(newPassword) && newPassword == confirm && !PasswordOk(newPassword.value) ==> r == Some(RuleAlert)
    ensures r.None? <==> !Falsy(newPassword) && newPassword == confirm && PasswordOk(newPassword.value)
  {
    if Falsy(newPassword) then Some("Please enter a new password")
    else if newPassword != confirm then Some("Passwords do not match")
    else if !PasswordOk(newPassword.value) then Some(RuleAlert)
    else None
  }

  // ---------------------------------------------------------------------
  // Selection

  function Without(ids: seq<MsgId>, id: MsgId): (r: seq<MsgId>)
    ensures forall x :: x in r <==> x in ids && x != id
  {
    Filter(ids, (x: MsgId) => x != id)
  }

  /** `toggleSelection` in selection mode: drop the id if it is selected,
      otherwise append it. */
  function Toggled(ids: seq<MsgId>, id: MsgId): (r: seq<MsgId>)
    ensures id in r <==> id !in ids
    ensures forall x :: x != id ==> (x in r <==> x in ids)
    ensures id !in ids ==> r == ids + [id]
  {
    if id in ids then Without(ids, id) else ids + [id]
  }

  /** Toggling twice gives back the same selection, as a set. */
  lemma ToggledTwice(ids: seq<MsgId>, id: MsgId)
    ensures forall x :: x in Toggled(Toggled(ids, id), id) <==> x in ids
  {
  }

  // ---------------------------------------------------------------------
  // The review panel

  datatype Step = ContactsStep | DatesStep | MessagesStep

  /** The step the back button leads to. */
  function Back(step: Step): (r: Step)
    ensures step == MessagesStep ==> r == DatesStep
    ensures step != MessagesStep ==> r == ContactsStep
  {
    match step
    case MessagesStep => DatesStep
    case _ => ContactsStep
  }

  /** Going back twice from any step reaches the contacts step, and stays there. */
  lemma BackReachesContacts(step: Step)
    ensures Back(Back(step)) == ContactsStep && Back(ContactsStep) == ContactsStep
  {
  }

  /** The user under review and the messages of the chosen day. */
  datatype ViewChat = ViewChat(userId: UserId, messages: seq<Message>)

  datatype ContextMenu = ContextMenu(visible: bool, messageId: Option<MsgId>)

  class ReviewPanel {
    var viewChat: Option<ViewChat>
    var step: Step
    var contacts: seq<AdminRoutes.Contact>
    var dates: seq<int>
    var selectedContact: Option<AdminRoutes.Contact>
    var selectedDate: Option<int>
    var contextMenu: ContextMenu
    var selectionMode: bool
    var selectedMsgs: seq<MsgId>

    constructor ()
      ensures viewChat.None? && step == ContactsStep && contacts == [] && dates == []
      ensures selectedContact.None? && selectedDate.None?
      ensures contextMenu == ContextMenu(false, None) && !selectionMode && selectedMsgs == []
    {
      viewChat := None;
      step := ContactsStep;
      contacts := [];
      dates := [];
      selectedContact := None;
      selectedDate := None;
      contextMenu := ContextMenu(false, None);
      selectionMode := false;
      selectedMsgs := [];
    }

    /** Opening a review: an empty view of the user at the contacts step
        with no contact or day chosen; `loaded` is the contact list, when
        it could be fetched. */
    method ReviewChat(userId: UserId, loaded: Option<seq<AdminRoutes.Contact>>)
      modifies this
      ensures viewChat == Some(ViewChat(userId, []))
      ensures step == ContactsStep && selectedContact.None? && selectedDate.None?
      ensures contacts == if loaded.Some? then loaded.value else old(contacts)
      ensures dates == old(dates) && contextMenu == old(contextMenu)
      ensures selectionMode == old(selectionMode) && selectedMsgs == old(selectedMsgs)
    {
      viewChat := Some(ViewChat(userId, []));
      step := ContactsStep;
      selectedContact := None;
      selectedDate := None;
      if loaded.Some? {
        contacts := loaded.value;
      }
    }

    /** Choosing a contact: its days, when fetched, move the panel to the
        days step. Without a user under review the fetch cannot be made. */
    method SelectContact(c: AdminRoutes.Contact, loaded: Option<seq<int>>)
      modifies this
      ensures selectedContact == Some(c)
      ensures old(viewChat).Some? && loaded.Some? ==> dates == loaded.value && step == DatesStep
      ensures !(old(viewChat).Some? && loaded.Some?) ==> dates == old(dates) && step == old(step)
      ensures viewChat == old(viewChat) && contacts == old(contacts) && selectedDate == old(selectedDate)
      ensures contextMenu == old(contextMenu) && selectionMode == old(selectionMode) && selectedMsgs == old(selectedMsgs)
    {
      selectedContact := Some(c);
      if viewChat.Some? && loaded.Some? {
        dates := loaded.value;
        step := DatesStep;
      }
    }

    /** Choosing a day: its messages, when fetched, replace the view's and
        move the panel to the messages step. */
    method SelectDate(day: int, loaded: Option<seq<Message>>)
      modifies this
      ensures selectedDate == Some(day)
      ensures old(viewChat).Some? && old(selectedContact).Some? && loaded.Some? ==>
        viewChat == Some(old(viewChat).value.(messages := loaded.value)) && step == MessagesStep
      ensures !(old(viewChat).Some? && old(selectedContact).Some? && loaded.Some?) ==>
        viewChat == old(viewChat) && step == old(step)
      ensures contacts == old(contacts) && dates == old(dates) && selectedContact == old(selectedContact)
      ensures contextMenu == old(contextMenu) && selectionMode == old(selectionMode) && selectedMsgs == old(selectedMsgs)
    {
      selectedDate := Some(day);
      if viewChat.Some? && selectedContact.Some? && loaded.Some? {
        viewChat := Some(viewChat.value.(messages := loaded.value));
        step := MessagesStep;
      }
    }

    method ChatBack()
      modifies this
      ensures step == Back(old(step))
      ensures viewChat == old(viewChat) && contacts == old(contacts) && dates == old(dates)
      ensures selectedContact == old(selectedContact) && selectedDate == old(selectedDate)
      ensures contextMenu == old(contextMenu) && selectionMode == old(selectionMode) && selectedMsgs == old(selectedMsgs)
    {
      if step == MessagesStep {
        step := DatesStep;
      } else if step == DatesStep {
        step := ContactsStep;
      }
    }

    /** A right-click on a message opens the menu for it; the screen
        offers the menu only outside selection mode. */
    method OpenContextMenu(id: MsgId)
      modifies this
      ensures contextMenu == if old(selectionMode) then old(contextMenu) else ContextMenu(true, Some(id))
      ensures viewChat == old(viewChat) && step == old(step) && selectionMode == old(selectionMode)
      ensures selectedMsgs == old(selectedMsgs)
      ensures contacts == old(contacts) && dates == old(dates)
      ensures selectedContact == old(selectedContact) && selectedDate == old(selectedDate)
    {
      if selectionMode {
        return;
      }
      contextMenu := ContextMenu(true, Some(id));
    }

    /** "Delete" in the menu: selection mode with exactly that message
        selected, and the menu closed. */
    method DeleteMessage()
      modifies this
      ensures old(contextMenu).messageId.Some? ==>
        && selectionMode && selectedMsgs == [old(contextMenu).messageId.value]
        && contextMenu == old(contextMenu).(visible := false)
      ensures old(contextMenu).messageId.None? ==>
        selectionMode == old(selectionMode) && selectedMsgs == old(selectedMsgs) && contextMenu == old(contextMenu)
      ensures viewChat == old(viewChat) && step == old(step)
      ensures contacts == old(contacts) && dates == old(dates)
      ensures selectedContact == old(selectedContact) && selectedDate == old(selectedDate)
    {
      if contextMenu.messageId.Some? {
        selectionMode := true;
        selectedMsgs := [contextMenu.messageId.value];
        contextMenu := contextMenu.(visible := false);
      }
    }

    method ToggleSelection(id: MsgId)
      modifies this
      ensures selectedMsgs == if old(selectionMode) then Toggled(old(selectedMsgs), id) else old(selectedMsgs)
      ensures selectionMode == old(selectionMode) && viewChat == old(viewChat) && step == old(step)
      ensures contextMenu == old(contextMenu)
      ensures contacts == old(contacts) && dates == old(dates)
      ensures selectedContact == old(selectedContact) && selectedDate == old(selectedDate)
    {
      if !selectionMode {
        return;
      }
      selectedMsgs := Toggled(selectedMsgs, id);
    }

    method CancelSelection()
      modifies this
      ensures !selectionMode && selectedMsgs == []
      ensures viewChat == old(viewChat) && step == old(step) && contextMenu == old(contextMenu)
      ensures contacts == old(contacts) && dates == old(dates)
      ensures selectedContact == old(selectedContact) && selectedDate == old(selectedDate)
    {
      selectionMode := false;
      selectedMsgs := [];
    }

    /** The bulk delete: nothing with an empty selection or an unconfirmed
        dialog; after the server accepts (`ok`), the selected messages of
        the view are marked deleted in place and selection mode ends. */
    method BulkDelete(confirmed: bool, ok: bool)
      modifies this
      ensures |old(selectedMsgs)| == 0 || !confirmed || !ok || old(viewChat).None? ==>
        viewChat == old(viewChat) && selectionMode == old(selectionMode) && selectedMsgs == old(selectedMsgs)
      ensures |old(selectedMsgs)| > 0 && confirmed && ok && old(viewChat).Some? ==>
        && viewChat == Some(old(viewChat).value.(messages := SoftDeleted(old(viewChat).value.messages, old(selectedMsgs))))
        && !selectionMode && selectedMsgs == []
      ensures step == old(step) && contextMenu == old(contextMenu)
      ensures contacts == old(contacts) && dates == old(dates)
      ensures selectedContact == old(selectedContact) && selectedDate == old(selectedDate)
    {
      if |selectedMsgs| == 0 || !confirmed || !ok || viewChat.None? {
        return;
      }
      var view := viewChat.value;
      viewChat := Some(view.(messages := SoftDeleted(view.messages, selectedMsgs)));
      selectionMode := false;
      selectedMsgs := [];
    }
  }
}
