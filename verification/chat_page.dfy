/** The chat screen's conversation state: the open thread, the sidebar of
    peers with their unread counters and last-message previews, the
    selected peer and the composer. The socket events and the HTTP answers
    arrive as method parameters; each handler is stated through a pure
    transform of the lists it rewrites. */
module ChatPage {
  import opened Common
  import opened Models
  import ChatRoutes

  /** A message as the screen holds it: from the history, from a socket
      event, or the placeholder of a message being sent. Absent fields are
      None; `isRead` is false when the field is missing. */
  datatype ClientMessage = ClientMessage(
    id: Option<nat>,
    senderId: Option<UserId>,
    userId: Option<UserId>,
    receiverId: Option<UserId>,
    role: string,
    content: Option<string>,
    kind: Option<string>,
    filePath: Option<string>,
    isRead: bool,
    readAt: Option<int>,
    createdAt: int)

  /** The sidebar's copy of a message: its text, time and type. */
  datatype Preview = Preview(content: Option<string>, createdAt: int, kind: Option<string>)

  /** A sidebar entry. A missing `unreadCount` reads as 0. */
  datatype Peer = Peer(id: UserId, name: string, unreadCount: Option<nat>, lastMessage: Option<Preview>)

  /** A file picked, pasted or dropped in the composer. */
  datatype LocalFile = LocalFile(name: string, mimeType: string)

  function Unread(p: Peer): nat {
    if p.unreadCount.Some? then p.unreadCount.value else 0
  }

  /** The sender of an inbound message: `sender_id`, else `user_id`. */
  function SenderOf(data: ClientMessage): (r: Option<UserId>)
    ensures data.senderId.Some? ==> r == data.senderId
    ensures data.senderId.None? ==> r == data.userId
  {
    if data.senderId.Some? then data.senderId else data.userId
  }

  /** The bubble test: a message is mine when I sent it or wrote it. */
  predicate IsMine(m: ClientMessage, me: UserId) {
    m.senderId == Some(me) || m.userId == Some(me)
  }

  // ---------------------------------------------------------------------
  // Sidebar transforms

  /** An inbound message for a peer whose thread is not open: that peer's
      counter goes up by one and its preview becomes the message. */
  function BumpUnread(users: seq<Peer>, sender: Option<UserId>, data: ClientMessage, now: int): (r: seq<Peer>)
    ensures |r| == |users|
    ensures forall i :: 0 <= i < |users| ==>
      if Some(users[i].id) == sender then
        r[i] == users[i].(unreadCount := Some(Unread(users[i]) + 1),
                          lastMessage := Some(Preview(data.content, now, data.kind)))
      else r[i] == users[i]
  {
    seq(|users|, i requires 0 <= i < |users| =>
      if Some(users[i].id) == sender then
        users[i].(unreadCount := Some(Unread(users[i]) + 1), lastMessage := Some(Preview(data.content, now, data.kind)))
      else users[i])
  }

  /** A successful mark-as-read: that peer's counter becomes 0. */
  function ClearUnread(users: seq<Peer>, peerId: UserId): (r: seq<Peer>)
    ensures |r| == |users|
    ensures forall i :: 0 <= i < |users| ==>
      if users[i].id == peerId then r[i] == users[i].(unreadCount := Some(0)) else r[i] == users[i]
  {
    seq(|users|, i requires 0 <= i < |users| =>
      if users[i].id == peerId then users[i].(unreadCount := Some(0)) else users[i])
  }

  /** A successful send: the selected peer's preview becomes the sent message. */
  function WithPreview(users: seq<Peer>, peerId: UserId, preview: Preview): (r: seq<Peer>)
    ensures |r| == |users|
    ensures forall i :: 0 <= i < |users| ==>
      if users[i].id == peerId then r[i] == users[i].(lastMessage := Some(preview)) else r[i] == users[i]
  {
    seq(|users|, i requires 0 <= i < |users| =>
      if users[i].id == peerId then users[i].(lastMessage := Some(preview)) else users[i])
  }

  /** The sum of the sidebar's counters. */
  function TotalUnread(users: seq<Peer>): nat {
    if users == [] then 0 else Unread(users[0]) + TotalUnread(users[1..])
  }

  function Occurrences(users: seq<Peer>, sender: Option<UserId>): nat {
    if users == [] then 0 else (if Some(users[0].id) == sender then 1 else 0) + Occurrences(users[1..], sender)
  }

  /** An inbound message raises the sidebar total by one per entry of its
      sender: by exactly one when the sender is listed once, and not at all
      when the sender is not listed. */
  lemma {:induction false} BumpUnreadTotal(users: seq<Peer>, sender: Option<UserId>, data: ClientMessage, now: int)
    ensures TotalUnread(BumpUnread(users, sender, data, now)) == TotalUnread(users) + Occurrences(users, sender)
  {
    if users != [] {
      var r := BumpUnread(users, sender, data, now);
      BumpUnreadTotal(users[1..], sender, data, now);
      assert r[1..] == BumpUnread(users[1..], sender, data, now);
    }
  }

  /** Clearing a peer's counter removes exactly that peer's unread messages
      from the sidebar total. */
  lemma {:induction false} ClearUnreadTotal(users: seq<Peer>, peerId: UserId)
    ensures TotalUnread(ClearUnread(users, peerId)) == TotalUnread(users) - UnreadFrom(users, peerId)
  {
    if users != [] {
      var r := ClearUnread(users, peerId);
      ClearUnreadTotal(users[1..], peerId);
      assert r[1..] == ClearUnread(users[1..], peerId);
    }
  }

  function UnreadFrom(users: seq<Peer>, peerId: UserId): (r: nat)
    ensures r <= TotalUnread(users)
  {
    if users == [] then 0 else (if users[0].id == peerId then Unread(users[0]) else 0) + UnreadFrom(users[1..], peerId)
  }

  // ---------------------------------------------------------------------
  // Thread transforms

  /** A read receipt: my unread messages become read at the given time;
      nothing else changes. */
  function MarkMineRead(messages: seq<ClientMessage>, me: UserId, readAt: Option<int>): (r: seq<ClientMessage>)
    ensures |r| == |messages|
    ensures forall i :: 0 <= i < |messages| ==>
      if IsMine(messages[i], me) && !messages[i].isRead then r[i] == messages[i].(isRead := true, readAt := readAt)
      else r[i] == messages[i]
  {
    seq(|messages|, i requires 0 <= i < |messages| =>
      if IsMine(messages[i], me) && !messages[i].isRead then messages[i].(isRead := true, readAt := readAt)
      else messages[i])
  }

  /** After a receipt every message of mine is read, so a second receipt,
      whatever its time, changes nothing. */
  lemma MarkMineReadIdempotent(messages: seq<ClientMessage>, me: UserId, first: Option<int>, second: Option<int>)
    ensures var once := MarkMineRead(messages, me, first);
      && (forall i :: 0 <= i < |once| && IsMine(once[i], me) ==> once[i].isRead)
      && MarkMineRead(once, me, second) == once
  {
    var once := MarkMineRead(messages, me, first);
    assert forall i :: 0 <= i < |once| ==> IsMine(once[i], me) == IsMine(messages[i], me);
  }

  // ---------------------------------------------------------------------
  // Sending

  const ImagePreview := "\U{1F4F7} Image"
  const FilePreview := "\U{1F4C4} File"

  /** The optimistic bubble shown while a message is on its way. */
  function Placeholder(me: UserId, peer: UserId, tempId: nat, input: string, file: Option<LocalFile>,
                       blobUrl: string, now: int): (m: ClientMessage)
    ensures m.id == Some(tempId) && m.senderId == Some(me) && m.receiverId == Some(peer)
    ensures m.role == "user" && m.content == Some(input) && !m.isRead && m.createdAt == now
    ensures IsMine(m, me)
    ensures file.None? ==> m.kind == Some("text") && m.filePath.None?
    ensures file.Some? ==> m.filePath == Some(blobUrl)
    ensures file.Some? ==> (m.kind == Some("image") <==> |file.value.mimeType| >= 6 && file.value.mimeType[..6] == "image/")
    ensures file.Some? ==> m.kind != Some("text")
  {
    var kind := if file.None? then "text"
                else if |file.value.mimeType| >= 6 && file.value.mimeType[..6] == "image/" then "image"
                else "file";
    ClientMessage(Some(tempId), Some(me), None, Some(peer), "user", Some(input), Some(kind),
                  if file.Some? then Some(blobUrl) else None, false, None, now)
  }

  /** The fields of the `message` object the client expects back from a send. */
  datatype SentMessage = SentMessage(content: Option<string>, kind: Option<string>)

  /** The text the sidebar shows for a sent message. */
  function PreviewText(m: SentMessage): (r: Option<string>)
    ensures m.kind == Some("image") ==> r == Some(ImagePreview)
    ensures m.kind == Some("file") ==> r == Some(FilePreview)
    ensures m.kind != Some("image") && m.kind != Some("file") ==> r == m.content
  {
    if m.kind == Some("image") then Some(ImagePreview)
    else if m.kind == Some("file") then Some(FilePreview)
    else m.content
  }

  /** What the client sees of the `/send` answer: nothing when the request
      failed, otherwise the `message` field of the body, when there is one. */
  datatype SendAnswer = RequestFailed | Answered(message: Option<SentMessage>)

  /** The body `/send` answers with holds a status and the model's reply,
      and no `message` field; a refusal is an error status, which the client
      sees as a failed request. */
  function AnswerFor(reply: ChatRoutes.SendReply): (r: SendAnswer)
    ensures reply.Refused? <==> r.RequestFailed?
    ensures r.Answered? ==> r.message.None?
  {
    match reply
    case Sent(_) => Answered(None)
    case Refused(_, _) => RequestFailed
  }

  // ---------------------------------------------------------------------
  // Attachment allowlist

  const ClientExts: seq<string> := ["jpg", "jpeg", "png", "doc", "docx", "pdf"]

  /** `name.split('.').pop()`: the text after the last dot, or the whole
      name when it has none. */
  function AfterLastDot(name: string): (r: string)
    ensures LastIndexOf(name, '.') < 0 ==> r == name
    ensures LastIndexOf(name, '.') >= 0 ==> r == name[LastIndexOf(name, '.') + 1..]
    ensures forall i :: 0 <= i < |r| ==> r[i] != '.'
  {
    name[LastIndexOf(name, '.') + 1..]
  }

  /** The paste and drop filter: the lower-cased text after the last dot
      must be on the allowlist. */
  predicate ClientAccepts(name: string) {
    Lower(AfterLastDot(name)) in ClientExts
  }

  /** A name the screen accepts, with a dot after its first character,
      passes the server's extension check too. */
  lemma ClientExtensionAgrees(name: string)
    requires ClientAccepts(name) && LastIndexOf(name, '.') > 0
    ensures Lower(ChatRoutes.ExtName(name)) in ChatRoutes.AllowedExts
  {
    var ext := AfterLastDot(name);
    assert |ext| > 0 && name[|name| - 1] == ext[|ext| - 1] != '.';
    assert ChatRoutes.ExtName(name) == ['.'] + ext;
    LowerAppend(['.'], ext);
    DottedClientExts(Lower(ext));
  }

  /** Every screen extension, with its dot, is a server extension. */
  lemma DottedClientExts(e: string)
    requires e in ClientExts
    ensures Lower(['.']) + e in ChatRoutes.AllowedExts
  {
    assert Lower(['.']) == ['.'];
    var allowed := ChatRoutes.AllowedExts;
    if e == "jpg" { assert ['.'] + e == allowed[0]; }
    else if e == "jpeg" { assert ['.'] + e == allowed[1]; }
    else if e == "png" { assert ['.'] + e == allowed[2]; }
    else if e == "doc" { assert ['.'] + e == allowed[6]; }
    else if e == "docx" { assert ['.'] + e == allowed[7]; }
    else { assert ['.'] + e == allowed[5]; }
  }

  /** The two filters disagree on names without a usable dot: a file
      called `pdf` or `.pdf` is taken by the screen and refused by the
      server's extension check. */
  lemma ClientExtensionDisagrees()
    ensures ClientAccepts("pdf") && Lower(ChatRoutes.ExtName("pdf")) !in ChatRoutes.AllowedExts
    ensures ClientAccepts(".pdf") && Lower(ChatRoutes.ExtName(".pdf")) !in ChatRoutes.AllowedExts
  {
    assert LastIndexOf("pdf", '.') == -1;
    assert Lower("pdf") == "pdf";
    assert ".pdf"[..3] == ".pd" && ".pd"[..2] == ".p" && ".p"[..1] == ".";
    assert LastIndexOf(".pdf", '.') == LastIndexOf(".pd", '.') == LastIndexOf(".p", '.') == LastIndexOf(".", '.') == 0;
    assert AfterLastDot(".pdf") == "pdf";
  }

  // ---------------------------------------------------------------------
  // The screen

  class Chat {
    const me: UserId
    var users: seq<Peer>
    var selectedUser: Option<Peer>
    var messages: seq<ClientMessage>
    var input: string
    var file: Option<LocalFile>

    constructor (me: UserId, users: seq<Peer>)
      ensures this.me == me && this.users == users
      ensures selectedUser.None? && messages == [] && input == "" && file.None?
    {
      this.me := me;
      this.users := users;
      selectedUser := None;
      messages := [];
      input := "";
      file := None;
    }

    /** `markAsRead(peerId)`; `ok` says whether the request succeeded. */
    method MarkAsRead(peerId: UserId, ok: bool)
      modifies this
      ensures users == if ok then ClearUnread(old(users), peerId) else old(users)
      ensures selectedUser == old(selectedUser) && messages == old(messages)
      ensures input == old(input) && file == old(file)
    {
      if ok {
        users := ClearUnread(users, peerId);
      }
    }

    /** The `receive_message` event. A message from the open thread's peer
        is appended and marks the thread read (`markOk` is that request's
        outcome); any other message bumps its sender's sidebar entry. */
    method ReceiveMessage(data: ClientMessage, now: int, markOk: bool)
      modifies this
      ensures var sender := SenderOf(data);
        if old(selectedUser).Some? && sender == Some(old(selectedUser).value.id) then
          && messages == old(messages) + [data.(role := "user", createdAt := now)]
          && users == (if markOk then ClearUnread(old(users), sender.value) else old(users))
        else
          && messages == old(messages)
          && users == BumpUnread(old(users), sender, data, now)
      ensures selectedUser == old(selectedUser) && input == old(input) && file == old(file)
    {
      var sender := SenderOf(data);
      if selectedUser.Some? && sender == Some(selectedUser.value.id) {
        messages := messages + [data.(role := "user", createdAt := now)];
        MarkAsRead(sender.value, markOk);
      } else {
        users := BumpUnread(users, sender, data, now);
      }
    }

    /** The `messages_read` event: only a receipt from the open thread's
        peer marks my messages read. */
    method MessagesRead(readerId: Option<UserId>, readAt: Option<int>)
      modifies this
      ensures messages == if old(selectedUser).Some? && readerId == Some(old(selectedUser).value.id)
                          then MarkMineRead(old(messages), me, readAt) else old(messages)
      ensures users == old(users) && selectedUser == old(selectedUser)
      ensures input == old(input) && file == old(file)
    {
      if selectedUser.Some? && readerId == Some(selectedUser.value.id) {
        messages := MarkMineRead(messages, me, readAt);
      }
    }

    /** Opening a peer's thread. `history` is the loaded conversation (None
        when loading failed); the thread is marked read only when the
        entry shows unread messages. */
    method SelectUser(u: Peer, history: Option<seq<ClientMessage>>, markOk: bool)
      modifies this
      ensures selectedUser == Some(u)
      ensures messages == if history.Some? then history.value else old(messages)
      ensures users == if Unread(u) > 0 && markOk then ClearUnread(old(users), u.id) else old(users)
      ensures input == old(input) && file == old(file)
    {
      selectedUser := Some(u);
      if history.Some? {
        messages := history.value;
      }
      if Unread(u) > 0 {
        MarkAsRead(u.id, markOk);
      }
    }

    /** The file picker: any chosen file is attached. */
    method SelectFile(chosen: Option<LocalFile>)
      modifies this
      ensures file == if chosen.Some? then chosen else old(file)
      ensures users == old(users) && selectedUser == old(selectedUser)
      ensures messages == old(messages) && input == old(input)
    {
      if chosen.Some? {
        file := chosen;
      }
    }

    /** Paste and drop: the file is attached only when its extension is on
        the allowlist. */
    method OfferFile(offered: LocalFile)
      modifies this
      ensures file == if ClientAccepts(offered.name) then Some(offered) else old(file)
      ensures users == old(users) && selectedUser == old(selectedUser)
      ensures messages == old(messages) && input == old(input)
    {
      if ClientAccepts(offered.name) {
        file := Some(offered);
      }
    }

    /** Sending. Nothing happens without a selected peer, or with a blank
        input and no file. Otherwise one placeholder is appended, the
        composer is cleared, and only when the answer carries the sent
        message does the peer's preview change. */
    method Send(tempId: nat, blobUrl: string, now: int, answer: SendAnswer)
      modifies this
      ensures old(selectedUser).None? || (Blank(old(input)) && old(file).None?) ==>
        && messages == old(messages) && users == old(users)
        && input == old(input) && file == old(file)
      ensures old(selectedUser).Some? && !(Blank(old(input)) && old(file).None?) ==>
        && messages == old(messages) + [Placeholder(me, old(selectedUser).value.id, tempId, old(input), old(file), blobUrl, now)]
        && input == "" && file.None?
        && users == (if answer.Answered? && answer.message.Some?
                     then WithPreview(old(users), old(selectedUser).value.id,
                                      Preview(PreviewText(answer.message.value), now, answer.message.value.kind))
                     else old(users))
      ensures selectedUser == old(selectedUser)
    {
      if selectedUser.None? || (Blank(input) && file.None?) {
        return;
      }
      var peer := selectedUser.value.id;
      messages := messages + [Placeholder(me, peer, tempId, input, file, blobUrl, now)];
      input := "";
      file := None;
      if answer.Answered? && answer.message.Some? {
        var sent := answer.message.value;
        users := WithPreview(users, peer, Preview(PreviewText(sent), now, sent.kind));
      }
    }
  }

  /** Against this repository's `/send` route the preview never changes:
      the answer has no `message` field, or the request failed. */
  method SendAgainstRoute(chat: Chat, tempId: nat, blobUrl: string, now: int, reply: ChatRoutes.SendReply)
    modifies chat
    ensures chat.users == old(chat.users)
  {
    chat.Send(tempId, blobUrl, now, AnswerFor(reply));
  }
}
