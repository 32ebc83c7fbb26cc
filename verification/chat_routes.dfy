/** The assistant-chat routes: content flagging against a fixed word list,
    the upload filter, attachment classification, the `/send` handler that
    stores the user's message and the model's reply, the pin/star toggle and
    a user's history. The language-model and PDF-reading calls are not
    modelled: their outcomes are parameters. */
module ChatRoutes {
  import opened Common
  import opened Models
  import opened Store

  // ---------------------------------------------------------------------
  // Content flagging

  const BadWords: seq<string> := ["hell", "damn", "badword", "idiot", "stupid", "hate", "kill", "abuse"]

  /** `words.some(word => text.includes(word))`. */
  function ContainsAny(text: string, words: seq<string>): (r: bool)
    ensures r <==> exists k :: 0 <= k < |words| && Contains(text, words[k])
  {
    if words == [] then false
    else Contains(text, words[0]) || ContainsAny(text, words[1..])
  }

  /** A message is flagged when its content is present and non-empty and
      its lower-case form contains one of the listed words. */
  function IsFlagged(content: Option<string>): (r: bool)
    ensures r <==> content.Some? && content.value != ""
                   && exists k :: 0 <= k < |BadWords| && Contains(Lower(content.value), BadWords[k])
  {
    content.Some? && content.value != "" && ContainsAny(Lower(content.value), BadWords)
  }

  /** Content holding a listed word, in any mix of upper and lower case,
      is flagged. */
  lemma ListedWordFlags(s: string, w: string, k: nat)
    requires k < |BadWords| && Lower(w) == BadWords[k] && Contains(s, w)
    ensures IsFlagged(Some(s))
  {
    ContainsLower(s, w);
    var i: nat :| OccursAt(s, w, i);
    assert BadWords[k] != "";
  }

  /** Flagging does not depend on case. */
  lemma FlaggingIgnoresCase(s: string)
    ensures IsFlagged(Some(s)) == IsFlagged(Some(Lower(s)))
  {
    LowerIdempotent(s);
  }

  lemma FlaggedExample()
    ensures IsFlagged(Some("I HATE Mondays"))
    ensures !IsFlagged(Some("")) && !IsFlagged(None)
  {
    var s := Lower("I HATE Mondays");
    assert s == "i hate mondays";
    assert s[2..6] == "hate" == BadWords[5];
    assert OccursAt(s, BadWords[5], 2);
  }

  // ---------------------------------------------------------------------
  // Uploads

  /** An uploaded file as the upload middleware describes it: the client's
      file name, the declared MIME type, and the name it was stored under. */
  datatype Upload = Upload(originalName: string, mimeType: string, storedName: string)

  const AllowedTypes: seq<string> := [
    "image/jpeg", "image/png", "image/gif", "image/webp",
    "application/pdf",
    "application/msword",
    "application/vnd.openxmlformats-officedocument.wordprocessingml.document"]

  const AllowedExts: seq<string> := [".jpg", ".jpeg", ".png", ".gif", ".webp", ".pdf", ".doc", ".docx"]

  const FilterError := "Invalid file type. Only Images, PDF, and Word files are allowed."

  /** `path.extname` of a file name without directory separators: the text
      from the last `.` on, or empty when there is no `.`, when the only
      dots lead the name, or for the name `..`. */
  function ExtName(name: string): (r: string)
    ensures r != [] ==> 0 < LastIndexOf(name, '.') && r == name[LastIndexOf(name, '.')..] && r[0] == '.'
    ensures LastIndexOf(name, '.') > 0 && name != ".." ==> r == name[LastIndexOf(name, '.')..]
  {
    var d := LastIndexOf(name, '.');
    if d <= 0 || name == ".." then "" else name[d..]
  }

  /** The upload filter: the MIME type and the lower-cased extension must
      both be on their allowlists. */
  predicate Accepts(f: Upload) {
    f.mimeType in AllowedTypes && Lower(ExtName(f.originalName)) in AllowedExts
  }

  /** `path.extname` of the lower-cased name is the lower-cased extension:
      lower-casing moves no dot. */
  lemma ExtNameLower(name: string)
    ensures ExtName(Lower(name)) == Lower(ExtName(name))
  {
    LowerKeepsDots(name);
    var d := LastIndexOf(name, '.');
    var e := LastIndexOf(Lower(name), '.');
    assert e == d;
    assert Lower(name) == ".." <==> name == "..";
    if d > 0 {
      LowerSlice(name, d, |name|);
    }
  }

  /** The upload filter ignores the case of the file name. */
  lemma AcceptsIgnoresCase(f: Upload)
    ensures Accepts(f) <==> Accepts(f.(originalName := Lower(f.originalName)))
  {
    ExtNameLower(f.originalName);
    LowerIdempotent(ExtName(f.originalName));
  }

  /** A file is refused for a MIME type off the list whatever its name, and
      for a name whose only dot leads it whatever its type. */
  lemma RejectsExamples()
    ensures !Accepts(Upload("notes.txt", "text/plain", "1-notes.txt"))
    ensures !Accepts(Upload("photo.jpg", "text/plain", "1-photo.jpg"))
    ensures !Accepts(Upload(".pdf", "application/pdf", "1-.pdf"))
  {
    assert "text/plain" !in AllowedTypes;
    assert ExtName(".pdf") == "";
  }

  /** The stored `type` and `file_path` for an optional attachment. */
  function Classify(file: Option<Upload>): (r: (Kind, Option<string>))
    ensures file.None? ==> r == (Text, None)
    ensures file.Some? ==> r.1 == Some("/uploads/" + file.value.storedName)
    ensures file.Some? ==> (r.0 == Image <==> |file.value.mimeType| >= 6 && file.value.mimeType[..6] == "image/")
    ensures file.Some? ==> r.0 != Text
  {
    match file
    case None => (Text, None)
    case Some(f) =>
      (if |f.mimeType| >= 6 && f.mimeType[..6] == "image/" then Image else File,
       Some("/uploads/" + f.storedName))
  }

  // ---------------------------------------------------------------------
  // The model's reply

  /** Which language-model call `/send` makes. */
  datatype ModelCall = Vision | PdfAnalysis | TextChat | NoCall

  function CallFor(kind: Kind, file: Option<Upload>, content: Option<string>): ModelCall {
    if kind == Image then Vision
    else if kind == File && file.Some? && file.value.mimeType == "application/pdf" then PdfAnalysis
    else if !Falsy(content) then TextChat
    else NoCall
  }

  /** What the language-model service answered: the first choice's text
      (empty when it has none) or the error it raised. */
  datatype Completion = Answer(text: string) | Failure(message: string)

  const PdfUnreadable := "I received the PDF, but couldn't read its text. It might be scanned or encrypted."

  /** The reply text, or the error that reaches the outer handler. A failure
      during PDF analysis is caught inside that branch, so it yields the
      unreadable-PDF text instead of an error. */
  function ModelReply(call: ModelCall, ai: Completion, pdfReadable: bool): (r: Result<string>)
    ensures r.Err? <==> (call == Vision || call == TextChat) && ai.Failure?
    ensures call == NoCall ==> r == Ok("File uploaded successfully.")
    ensures call == PdfAnalysis && (!pdfReadable || ai.Failure?) ==> r == Ok(PdfUnreadable)
    ensures r.Ok? && ai.Answer? && ai.text != "" && (call == Vision || call == TextChat || (call == PdfAnalysis && pdfReadable))
            ==> r.value == ai.text
  {
    match call
    case NoCall => Ok("File uploaded successfully.")
    case PdfAnalysis =>
      if !pdfReadable || ai.Failure? then Ok(PdfUnreadable)
      else Ok(if ai.text != "" then ai.text else "Document analyzed.")
    case Vision =>
      if ai.Failure? then Err(ai.message) else Ok(if ai.text != "" then ai.text else "Image processed.")
    case TextChat =>
      if ai.Failure? then Err(ai.message) else Ok(if ai.text != "" then ai.text else "Done.")
  }

  function ErrorReply(message: string): string {
    "Sorry, I encountered an error processing that. (" + message + ")"
  }

  // ---------------------------------------------------------------------
  // POST /send

  datatype SendRequest = SendRequest(
    userId: Option<UserId>,
    content: Option<string>,
    replyTo: Option<MsgId>,
    file: Option<Upload>)

  /** The response body: `{status: 'sent', aiResponse}` or an HTTP error. */
  datatype SendReply = Sent(aiResponse: string) | Refused(status: nat, error: string)

  /** The response and the records `/send` stores, in creation order. */
  datatype SendOutcome = SendOutcome(reply: SendReply, stored: seq<Message>)

  function UserRecord(req: SendRequest, id: MsgId, now: int): (m: Message)
    requires req.userId.Some?
    ensures m.role == "user" && m.userId == req.userId.value && m.receiverId.None?
    ensures m.content == Some(if req.content.Some? then req.content.value else "")
    ensures (m.kind, m.filePath) == Classify(req.file)
    ensures m.replyTo == req.replyTo && m.isFlagged == IsFlagged(req.content)
    ensures !m.isPinned && !m.isStarred && !m.isDeletedByAdmin && m.id == id && m.createdAt == now
  {
    var (kind, path) := Classify(req.file);
    var fields := MessageFields(req.userId, Some("user"),
                                Some(if Falsy(req.content) then "" else req.content.value),
                                Some(KindName(kind)), path, req.replyTo, Some(IsFlagged(req.content)));
    ParseKindName(kind);
    CreateMessage(fields, id, now).value
  }

  function ModelRecord(userId: UserId, text: string, id: MsgId, now: int): (m: Message)
    ensures m.role == "model" && m.userId == userId && m.receiverId.None?
    ensures m.content == Some(text) && m.kind == Text && m.filePath.None? && m.replyTo.None?
    ensures !m.isFlagged && !m.isPinned && !m.isStarred && !m.isDeletedByAdmin && m.id == id && m.createdAt == now
  {
    CreateMessage(MessageFields(Some(userId), Some("model"), Some(text), Some("text"), None, None, None), id, now).value
  }

  /** `/send`: the upload filter runs first, then the user-id guard. Past
      both, the user's message is stored and then the model's reply (or the
      error text when the model call failed), and the reply text is
      returned. Empty content is the exception: the flag is then the empty
      string, which the schema's Boolean cast refuses, so the first insert
      throws and only the error text (wrapping `castError`, the store's
      validation message) is stored. */
  function SendRoute(req: SendRequest, ai: Completion, pdfReadable: bool, castError: string,
                     id: MsgId, sentAt: int, repliedAt: int): (r: SendOutcome)
    ensures req.file.Some? && !Accepts(req.file.value) ==> r == SendOutcome(Refused(400, FilterError), [])
    ensures (req.file.None? || Accepts(req.file.value)) && req.userId.None?
            ==> r == SendOutcome(Refused(400, "User ID required"), [])
    ensures r.reply.Refused? <==> r.stored == []
    ensures r.reply.Sent? <==> (req.file.None? || Accepts(req.file.value)) && req.userId.Some?
    ensures r.reply.Sent? && req.content == Some("") ==>
      && r.reply.aiResponse == ErrorReply(castError)
      && r.stored == [ModelRecord(req.userId.value, ErrorReply(castError), id, repliedAt)]
    ensures r.reply.Sent? && req.content != Some("") ==>
      && |r.stored| == 2
      && r.stored[0] == UserRecord(req, id, sentAt)
      && r.stored[1] == ModelRecord(req.userId.value, r.reply.aiResponse, id + 1, repliedAt)
      && var reply := ModelReply(CallFor(r.stored[0].kind, req.file, req.content), ai, pdfReadable);
         r.reply.aiResponse == if reply.Ok? then reply.value else ErrorReply(reply.error)
  {
    if req.file.Some? && !Accepts(req.file.value) then SendOutcome(Refused(400, FilterError), [])
    else if req.userId.None? then SendOutcome(Refused(400, "User ID required"), [])
    else if req.content == Some("") then
      var text := ErrorReply(castError);
      SendOutcome(Sent(text), [ModelRecord(req.userId.value, text, id, repliedAt)])
    else
      var first := UserRecord(req, id, sentAt);
      var reply := ModelReply(CallFor(first.kind, req.file, req.content), ai, pdfReadable);
      var text := if reply.Ok? then reply.value else ErrorReply(reply.error);
      SendOutcome(Sent(text), [first, ModelRecord(req.userId.value, text, id + 1, repliedAt)])
  }

  /** The stored records take the next ids, in order. */
  lemma SendNumbersRecords(req: SendRequest, ai: Completion, pdfReadable: bool, castError: string,
                           id: MsgId, sentAt: int, repliedAt: int)
    ensures var out := SendRoute(req, ai, pdfReadable, castError, id, sentAt, repliedAt);
      forall i :: 0 <= i < |out.stored| ==> out.stored[i].id == id + i
  {
  }

  /** The handler against the store: the records are appended and nothing
      else changes. */
  method Send(db: Db, req: SendRequest, ai: Completion, pdfReadable: bool, castError: string,
              sentAt: int, repliedAt: int)
    returns (reply: SendReply)
    requires db.Valid()
    modifies db
    ensures db.Valid()
    ensures var out := SendRoute(req, ai, pdfReadable, castError, old(db.nextId), sentAt, repliedAt);
      reply == out.reply && db.messages == old(db.messages) + out.stored
    ensures db.users == old(db.users) && db.resets == old(db.resets)
  {
    var out := SendRoute(req, ai, pdfReadable, castError, db.nextId, sentAt, repliedAt);
    reply := out.reply;
    if reply.Sent? {
      SendNumbersRecords(req, ai, pdfReadable, castError, db.nextId, sentAt, repliedAt);
      AppendFresh(db.messages, out.stored, db.nextId);
      db.messages := db.messages + out.stored;
      db.nextId := db.nextId + |out.stored|;
    }
  }

  // ---------------------------------------------------------------------
  // GET /history/:userId and POST /message/:id/toggle

  /** The query `{user_id: userId}`. */
  function OwnedBy(userId: UserId): Message -> bool {
    (m: Message) => m.userId == userId
  }

  /** A user's messages, oldest first. */
  function History(messages: seq<Message>, userId: UserId): (r: seq<Message>)
    ensures SortedByTime(r, false)
    ensures multiset(r) == multiset(Filter(messages, OwnedBy(userId)))
    ensures forall m :: m in r <==> m in messages && m.userId == userId
  {
    var mine := Filter(messages, OwnedBy(userId));
    SortedElements(mine, false);
    SortByTime(mine, false)
  }

  /** `findByIdAndUpdate(id, update)` where `update` sets `is_pinned` for
      the action 'pin', `is_starred` for 'star', and nothing otherwise (an
      absent value leaves the update empty). */
  function Toggled(messages: seq<Message>, id: MsgId, action: string, value: Option<bool>): (r: seq<Message>)
    ensures |r| == |messages|
    ensures forall i :: 0 <= i < |messages| && messages[i].id != id ==> r[i] == messages[i]
    ensures forall i :: 0 <= i < |messages| ==>
      r[i].(isPinned := messages[i].isPinned, isStarred := messages[i].isStarred) == messages[i]
    ensures action == "pin" && value.Some? ==>
      forall i :: 0 <= i < |messages| && messages[i].id == id ==>
        r[i].isPinned == value.value && r[i].isStarred == messages[i].isStarred
    ensures action == "star" && value.Some? ==>
      forall i :: 0 <= i < |messages| && messages[i].id == id ==>
        r[i].isStarred == value.value && r[i].isPinned == messages[i].isPinned
    ensures (action != "pin" && action != "star") || value.None? ==> r == messages
  {
    seq(|messages|, i requires 0 <= i < |messages| =>
      var m := messages[i];
      if m.id != id || value.None? then m
      else if action == "pin" then m.(isPinned := value.value)
      else if action == "star" then m.(isStarred := value.value)
      else m)
  }

  /** The toggle handler: the store is updated and the updated message (or
      none, for an unknown id) is returned. */
  method Toggle(db: Db, id: MsgId, action: string, value: Option<bool>) returns (updated: Option<Message>)
    requires db.Valid()
    modifies db
    ensures db.Valid()
    ensures db.messages == Toggled(old(db.messages), id, action, value)
    ensures updated == First(db.messages, (m: Message) => m.id == id)
    ensures db.users == old(db.users) && db.resets == old(db.resets) && db.nextId == old(db.nextId)
  {
    db.messages := Toggled(db.messages, id, action, value);
    updated := First(db.messages, (m: Message) => m.id == id);
  }
}
