/**
 * The provider's webhook: the subscription handshake, and the event handler that turns inbound
 * messages and delivery statuses into contact, conversation, message and campaign-recipient
 * writes. The handler always acknowledges; a failing store step skips the rest of that message.
 */
module Webhook {
  import opened Wrappers
  import opened Text
  import opened Lists
  import opened Types
  import opened Store

  // ---------------------------------------------------------------------------------------------
  // Opt-out and opt-in keywords

  datatype OptChange = OptOut | OptIn

  const OptOutKeywords: set<string> := {
    "stop", "stopall", "unsubscribe", "cancel", "end", "quit",
    "cancelar", "detener", "parar", "salir", "baja", "desuscribir", "no quiero"}

  const OptInKeywords: set<string> := {"start", "subscribe", "suscribir", "iniciar", "inicio", "alta"}

  /** `detectOptChange`: the trimmed, lowercased text looked up in the opt-out set first. */
  function DetectOptChange(text: string): Option<OptChange> {
    Classify(ToLower(Trim(text)))
  }

  function Classify(normalized: string): Option<OptChange> {
    if normalized in OptOutKeywords then Some(OptOut)
    else if normalized in OptInKeywords then Some(OptIn)
    else None
  }

  // ---------------------------------------------------------------------------------------------
  // Subscription handshake (GET)

  datatype TextResponse = TextResponse(status: nat, body: Option<string>)

  /** `verifyToken` is the configured token, which may be unset. */
  function Handshake(mode: Option<string>, token: Option<string>, challenge: Option<string>,
                     verifyToken: Option<string>): TextResponse {
    if mode == Some("subscribe") && token.Some? && token == verifyToken then TextResponse(200, challenge)
    else TextResponse(403, Some("Forbidden"))
  }

  // ---------------------------------------------------------------------------------------------
  // The event payload (POST)

  datatype WaContact = WaContact(waId: string, profileName: Option<string>)

  /**
   * An inbound message. `sentAt` is its timestamp already rendered as an ISO date; `body`
   * holds the keys of the message object the handler and the dashboard read.
   */
  datatype WaMessage = WaMessage(id: string, from: string, sentAt: string, msgType: string, body: Content)

  datatype WaStatus = WaStatus(id: string, status: string)

  datatype ChangeValue = ChangeValue(
    messages: Option<seq<WaMessage>>,
    contacts: Option<seq<WaContact>>,
    statuses: Option<seq<WaStatus>>)

  /** A change whose `value` is missing makes the handler throw when it reads `value.messages`. */
  datatype Change = Change(field: string, value: Option<ChangeValue>)

  datatype Entry = Entry(changes: Option<seq<Change>>)

  datatype Payload = Payload(entry: Option<seq<Entry>>)

  datatype Ack = Ack(ok: bool)

  /** The conversation-list preview of an inbound message. */
  function Preview(wa: WaMessage): string {
    var t := wa.msgType;
    if t == "text" then wa.body.textBody.GetOr("")
    else if t == "image" then
      (if wa.body.imageCaption.Some? && wa.body.imageCaption.value != "" then wa.body.imageCaption.value else "[Image]")
    else if t == "audio" then "[Audio]"
    else if t == "video" then "[Video]"
    else if t == "document" then "[Document: " + wa.body.documentFilename.GetOr("file") + "]"
    else "[" + t + "]"
  }

  /** The opt change a message carries: only text messages carry one. */
  function MessageOptChange(wa: WaMessage): Option<OptChange> {
    if wa.msgType == "text" then DetectOptChange(wa.body.textBody.GetOr("")) else None
  }

  /** `contacts.find(c => c.wa_id === from)?.profile?.name ?? null` */
  function ProfileName(infos: seq<WaContact>, from: string): Option<string> {
    if infos == [] then None
    else if infos[0].waId == from then infos[0].profileName
    else ProfileName(infos[1..], from)
  }

  // ---------------------------------------------------------------------------------------------
  // Store writes of one inbound message

  /** The first row holding `phone`, or -1. */
  function PhoneIndex(rows: seq<ContactRow>, phone: string): (k: int)
    ensures -1 <= k < |rows|
    ensures k >= 0 ==> rows[k].phone == phone && forall j :: 0 <= j < k ==> rows[j].phone != phone
    ensures k == -1 ==> forall j :: 0 <= j < |rows| ==> rows[j].phone != phone
  {
    if rows == [] then -1
    else if rows[0].phone == phone then 0
    else var k := PhoneIndex(rows[1..], phone); if k == -1 then -1 else k + 1
  }

  /** The opt-out flag after a change: set by an opt-out, cleared by an opt-in, otherwise kept. */
  function OptedOutAfter(change: Option<OptChange>, current: bool): bool {
    match change
    case Some(OptOut) => true
    case Some(OptIn) => false
    case None => current
  }

  /** The contacts table and counter after the upsert on `phone`, and the upserted row. */
  datatype ContactUpsert = ContactUpsert(rows: seq<ContactRow>, nextId: nat, contact: ContactRow)

  /** The upsert on the literal phone: the profile name (or null) always overwrites the stored name. */
  function UpsertContact(rows: seq<ContactRow>, nextId: nat, phone: string, name: Option<string>,
                         change: Option<OptChange>): ContactUpsert {
    var k := PhoneIndex(rows, phone);
    if k >= 0 then
      var updated := rows[k].(name := name, optedOut := OptedOutAfter(change, rows[k].optedOut));
      ContactUpsert(rows[k := updated], nextId, updated)
    else
      var created := ContactRow(nextId, phone, name, OptedOutAfter(change, false));
      ContactUpsert(rows + [created], nextId + 1, created)
  }

  function ContactIdIs(contactId: nat): ConversationRow -> bool {
    (c: ConversationRow) => c.contactId == contactId
  }

  /** A conversation inserted with only its contact: not archived, no campaign, nothing unread. */
  function NewConversation(id: nat, contactId: nat): ConversationRow {
    ConversationRow(id, contactId, None, false, Some(0), None, None)
  }

  /** The first row with this wamid, or -1. */
  function WamidIndex(rows: seq<MessageRow>, wamid: string): (k: int)
    ensures -1 <= k < |rows|
    ensures k >= 0 ==> rows[k].wamid == Some(wamid) && forall j :: 0 <= j < k ==> rows[j].wamid != Some(wamid)
    ensures k == -1 ==> forall j :: 0 <= j < |rows| ==> rows[j].wamid != Some(wamid)
  {
    if rows == [] then -1
    else if rows[0].wamid == Some(wamid) then 0
    else var k := WamidIndex(rows[1..], wamid); if k == -1 then -1 else k + 1
  }

  /** The row the message upsert writes, under a given id. */
  function InboundRow(id: nat, conversationId: nat, wa: WaMessage): MessageRow {
    MessageRow(id, conversationId, Some(wa.id), Inbound, wa.msgType, wa.body, "delivered")
  }

  /** The upsert on wamid: an existing row keeps its id and takes the new values; otherwise a row is added. */
  function UpsertInbound(t: Tables, conversationId: nat, wa: WaMessage): Tables {
    var k := WamidIndex(t.messages, wa.id);
    if k >= 0 then t.(messages := t.messages[k := InboundRow(t.messages[k].id, conversationId, wa)])
    else t.(messages := t.messages + [InboundRow(t.nextId, conversationId, wa)], nextId := t.nextId + 1)
  }

  /** A reply to a campaign: the conversation was campaign-linked and archived when the message came in. */
  predicate IsReplyToCampaign(conv: ConversationRow) {
    conv.campaignId.Some? && conv.archived
  }

  /** The summary update: preview, time, one more unread, and unarchived only on a campaign reply. */
  function Summarised(conv: ConversationRow, wa: WaMessage): ConversationRow {
    conv.(lastMessage := Some(Preview(wa)),
          lastMessageAt := Some(wa.sentAt),
          unreadCount := Some(conv.unreadCount.GetOr(0) + 1),
          archived := if IsReplyToCampaign(conv) then false else conv.archived)
  }

  /** `update(...).eq("id", updated.id)` on conversations. */
  function ReplaceConversationRow(rows: seq<ConversationRow>, updated: ConversationRow): seq<ConversationRow> {
    seq(|rows|, i requires 0 <= i < |rows| => if rows[i].id == updated.id then updated else rows[i])
  }

  /** The recipient update guarded by `replied_at is null`: only the first reply is recorded. */
  function MarkReplied(rows: seq<RecipientRow>, campaignId: nat, contactId: nat, now: string): seq<RecipientRow> {
    seq(|rows|, i requires 0 <= i < |rows| =>
      if rows[i].campaignId == campaignId && rows[i].contactId == contactId && rows[i].repliedAt.None?
      then rows[i].(repliedAt := Some(now), status := "replied")
      else rows[i])
  }

  /** The conversation the message lands in, and the tables after finding or creating it. */
  datatype Landing = Landing(tables: Tables, conversation: Option<ConversationRow>)

  /** Find the contact's conversation (`maybeSingle`), or insert one. */
  function FindOrOpenConversation(t: Tables, contactId: nat): Landing {
    if ConversationsTable in t.down then Landing(t, None)
    else match MaybeSingle(Filter(t.conversations, ContactIdIs(contactId)))
      case Some(conv) => Landing(t, Some(conv))
      case None =>
        var conv := NewConversation(t.nextId, contactId);
        Landing(t.(conversations := t.conversations + [conv], nextId := t.nextId + 1), Some(conv))
  }

  /** Everything one inbound message does to the store. */
  function ProcessMessage(t: Tables, wa: WaMessage, infos: seq<WaContact>, now: string): Tables {
    if ContactsTable in t.down then t
    else
      var up := UpsertContact(t.contacts, t.nextId, wa.from, ProfileName(infos, wa.from), MessageOptChange(wa));
      var t1 := t.(contacts := up.rows, nextId := up.nextId);
      var landing := FindOrOpenConversation(t1, up.contact.id);
      if landing.conversation.None? then t1
      else RecordMessage(landing.tables, landing.conversation.value, up.contact.id, wa, now)
  }

  /** Steps 4-6: store the message, update the summary and, on a campaign reply, mark the recipient. */
  function RecordMessage(t: Tables, conv: ConversationRow, contactId: nat, wa: WaMessage, now: string): Tables {
    var t3 := if MessagesTable in t.down then t else UpsertInbound(t, conv.id, wa);
    var t4 := t3.(conversations := ReplaceConversationRow(t3.conversations, Summarised(conv, wa)));
    if IsReplyToCampaign(conv) && RecipientsTable !in t.down
    then t4.(recipients := MarkReplied(t4.recipients, conv.campaignId.value, contactId, now))
    else t4
  }

  /** `update({status}).eq("wamid", id)`: no check that the status moves forward. */
  function SetStatus(rows: seq<MessageRow>, wamid: string, status: string): seq<MessageRow> {
    seq(|rows|, i requires 0 <= i < |rows| => if rows[i].wamid == Some(wamid) then rows[i].(status := status) else rows[i])
  }

  function ApplyStatus(t: Tables, st: WaStatus): Tables {
    if MessagesTable in t.down then t else t.(messages := SetStatus(t.messages, st.id, st.status))
  }

  function ApplyMessages(t: Tables, msgs: seq<WaMessage>, infos: seq<WaContact>, now: string): Tables
    decreases |msgs|
  {
    if msgs == [] then t else ApplyMessages(ProcessMessage(t, msgs[0], infos, now), msgs[1..], infos, now)
  }

  function ApplyStatuses(t: Tables, statuses: seq<WaStatus>): Tables
    decreases |statuses|
  {
    if statuses == [] then t else ApplyStatuses(ApplyStatus(t, statuses[0]), statuses[1..])
  }

  /** The messages of one change, then its statuses. */
  function ApplyValue(t: Tables, v: ChangeValue, now: string): Tables {
    ApplyStatuses(ApplyMessages(t, v.messages.GetOr([]), v.contacts.GetOr([]), now), v.statuses.GetOr([]))
  }

  /** The store after a run of the handler, and whether it stopped at an exception. */
  datatype Run = Run(tables: Tables, aborted: bool)

  function ApplyChanges(t: Tables, changes: seq<Change>, now: string): Run
    decreases |changes|
  {
    if changes == [] then Run(t, false)
    else if changes[0].field != "messages" then ApplyChanges(t, changes[1..], now)
    else if changes[0].value.None? then Run(t, true)
    else ApplyChanges(ApplyValue(t, changes[0].value.value, now), changes[1..], now)
  }

  function ApplyEntries(t: Tables, entries: seq<Entry>, now: string): Run
    decreases |entries|
  {
    if entries == [] then Run(t, false)
    else
      var r := ApplyChanges(t, entries[0].changes.GetOr([]), now);
      if r.aborted then r else ApplyEntries(r.tables, entries[1..], now)
  }

  /** The store after a POST; a body that is not JSON (`None`) changes nothing. */
  function HandleEvents(t: Tables, body: Option<Payload>, now: string): Tables {
    match body
    case None => t
    case Some(p) => ApplyEntries(t, p.entry.GetOr([]), now).tables
  }

  // ---------------------------------------------------------------------------------------------
  // The handler against the store

  /** Steps 1-6 for one inbound message. `now` is the clock reading used for `replied_at`. */
  method HandleMessage(db: Db, wa: WaMessage, infos: seq<WaContact>, now: string)
    modifies db
    ensures db.State() == ProcessMessage(old(db.State()), wa, infos, now)
  {
    if ContactsTable in db.down {
      return;
    }
    var up := UpsertContact(db.contacts, db.nextId, wa.from, ProfileName(infos, wa.from), MessageOptChange(wa));
    db.contacts, db.nextId := up.rows, up.nextId;
    var conv := OpenConversation(db, up.contact.id);
    if conv.None? {
      return;
    }
    RecordInbound(db, conv.value, up.contact.id, wa, now);
  }

  /** Step 2: the contact's one conversation, or a new one inserted. */
  method OpenConversation(db: Db, contactId: nat) returns (conv: Option<ConversationRow>)
    modifies db`conversations, db`nextId
    ensures var l := FindOrOpenConversation(old(db.State()), contactId);
      db.State() == l.tables && conv == l.conversation
  {
    if ConversationsTable in db.down {
      return None;
    }
    conv := MaybeSingle(Filter(db.conversations, ContactIdIs(contactId)));
    if conv.None? {
      var row := NewConversation(db.nextId, contactId);
      db.conversations := db.conversations + [row];
      db.nextId := db.nextId + 1;
      conv := Some(row);
    }
  }

  /** Steps 4-6: the message upsert, the summary update and the recipient update. */
  method RecordInbound(db: Db, conv: ConversationRow, contactId: nat, wa: WaMessage, now: string)
    modifies db`messages, db`nextId, db`conversations, db`recipients
    ensures db.State() == RecordMessage(old(db.State()), conv, contactId, wa, now)
  {
    if MessagesTable !in db.down {
      var k := WamidIndex(db.messages, wa.id);
      if k >= 0 {
        db.messages := db.messages[k := InboundRow(db.messages[k].id, conv.id, wa)];
      } else {
        db.messages := db.messages + [InboundRow(db.nextId, conv.id, wa)];
        db.nextId := db.nextId + 1;
      }
    }
    db.conversations := ReplaceConversationRow(db.conversations, Summarised(conv, wa));
    if IsReplyToCampaign(conv) && RecipientsTable !in db.down {
      db.recipients := MarkReplied(db.recipients, conv.campaignId.value, contactId, now);
    }
  }

  method HandleStatus(db: Db, st: WaStatus)
    modifies db
    ensures db.State() == ApplyStatus(old(db.State()), st)
  {
    if MessagesTable !in db.down {
      db.messages := SetStatus(db.messages, st.id, st.status);
    }
  }

  /** The POST handler: every message, then every status, of every "messages" change; always acknowledged. */
  method Post(db: Db, body: Option<Payload>, now: string) returns (ack: Ack)
    requires db.Valid()
    modifies db
    ensures db.State() == HandleEvents(old(db.State()), body, now)
    ensures ack.ok && db.Valid()
  {
    HandleEventsKeepsValid(db.State(), body, now);
    ack := Ack(true);
    if body.None? {
      return;
    }
    var entries := body.value.entry.GetOr([]);
    var e := 0;
    while e < |entries|
      invariant 0 <= e <= |entries|
      invariant ApplyEntries(db.State(), entries[e..], now) == ApplyEntries(old(db.State()), entries, now)
    {
      assert entries[e..][1..] == entries[e + 1..];
      ghost var atEntry := db.State();
      var changes := entries[e].changes.GetOr([]);
      var c := 0;
      while c < |changes|
        invariant 0 <= c <= |changes|
        invariant ApplyChanges(db.State(), changes[c..], now) == ApplyChanges(atEntry, changes, now)
      {
        assert changes[c..][1..] == changes[c + 1..];
        var change := changes[c];
        if change.field == "messages" {
          if change.value.None? {
            return;
          }
          var value := change.value.value;
          ghost var atValue := db.State();
          var msgs := value.messages.GetOr([]);
          var infos := value.contacts.GetOr([]);
          var m := 0;
          while m < |msgs|
            invariant 0 <= m <= |msgs|
            invariant ApplyMessages(db.State(), msgs[m..], infos, now) == ApplyMessages(atValue, msgs, infos, now)
          {
            assert msgs[m..][1..] == msgs[m + 1..];
            HandleMessage(db, msgs[m], infos, now);
            m := m + 1;
          }
          ghost var afterMessages := db.State();
          var statuses := value.statuses.GetOr([]);
          var s := 0;
          while s < |statuses|
            invariant 0 <= s <= |statuses|
            invariant ApplyStatuses(db.State(), statuses[s..]) == ApplyStatuses(afterMessages, statuses)
          {
            assert statuses[s..][1..] == statuses[s + 1..];
            HandleStatus(db, statuses[s]);
            s := s + 1;
          }
        }
        c := c + 1;
      }
      e := e + 1;
    }
  }

  // ---------------------------------------------------------------------------------------------
  // Keywords, handshake, preview

  lemma KeywordSetsDisjoint()
    ensures OptOutKeywords * OptInKeywords == {}
  {
  }

  /** A text opts out exactly when its normalised form is an opt-out keyword, and opts in exactly for an opt-in one. */
  lemma DetectOptChangeMeaning(text: string)
    ensures DetectOptChange(text) == Some(OptOut) <==> ToLower(Trim(text)) in OptOutKeywords
    ensures DetectOptChange(text) == Some(OptIn) <==> ToLower(Trim(text)) in OptInKeywords
    ensures DetectOptChange(text) == None <==> ToLower(Trim(text)) !in OptOutKeywords + OptInKeywords
  {
    KeywordSetsDisjoint();
    assert ToLower(Trim(text)) !in OptOutKeywords * OptInKeywords;
  }

  /** Surrounding whitespace does not change the outcome. */
  lemma DetectIgnoresPadding(text: string)
    ensures DetectOptChange(Trim(text)) == DetectOptChange(text)
  {
    TrimIsTrimmed(text);
    TrimOfTrimmed(Trim(text));
    assert Trim(Trim(text)) == Trim(text);
  }

  /** Letter case does not change the outcome. */
  lemma DetectIgnoresCase(text: string)
    ensures DetectOptChange(ToLower(text)) == DetectOptChange(text)
  {
    var t := Trim(text);
    ToLowerTrim(text);
    ToLowerIdempotent(t);
    assert ToLower(Trim(ToLower(text))) == ToLower(t);
  }

  /** Letter case aside, the keyword is recognised. */
  lemma DetectExample()
    ensures DetectOptChange("Stop") == Some(OptOut)
  {
    TrimOfTrimmed("Stop");
    LowerStop();
    StopIsOptOut();
  }

  lemma LowerStop()
    ensures ToLower("Stop") == "stop"
  {
    var l := ToLower("Stop");
    assert |l| == 4 && l[0] == 's' && l[1] == 't' && l[2] == 'o' && l[3] == 'p';
  }

  lemma StopIsOptOut()
    ensures Classify("stop") == Some(OptOut)
  {
    assert "stop" in OptOutKeywords;
  }

  /** The challenge is echoed with 200 exactly for mode "subscribe" and the configured token; otherwise 403. */
  lemma HandshakeAccepts(mode: Option<string>, token: Option<string>, challenge: Option<string>, verifyToken: Option<string>)
    ensures var r := Handshake(mode, token, challenge, verifyToken);
      (r.status == 200 <==> mode == Some("subscribe") && verifyToken.Some? && token == verifyToken)
      && (r.status == 200 ==> r.body == challenge)
      && (r.status != 200 ==> r == TextResponse(403, Some("Forbidden")))
  {
  }

  /**
   * A text previews as its body; an image as its non-empty caption, else "[Image]"; audio and video
   * as fixed labels; a document by its file name, else "file"; every other type as a bracketed
   * label, so only text and captioned images can show the sender's own words.
   */
  lemma PreviewShape(wa: WaMessage)
    ensures wa.msgType == "text" ==> Preview(wa) == wa.body.textBody.GetOr("")
    ensures wa.msgType == "image" && wa.body.imageCaption.Some? && wa.body.imageCaption.value != "" ==>
      Preview(wa) == wa.body.imageCaption.value
    ensures wa.msgType == "image" && (wa.body.imageCaption.None? || wa.body.imageCaption.value == "") ==>
      Preview(wa) == "[Image]"
    ensures wa.msgType == "audio" ==> Preview(wa) == "[Audio]"
    ensures wa.msgType == "video" ==> Preview(wa) == "[Video]"
    ensures wa.msgType == "document" && wa.body.documentFilename.Some? ==>
      Preview(wa) == "[Document: " + wa.body.documentFilename.value + "]"
    ensures wa.msgType == "document" && wa.body.documentFilename.None? ==> Preview(wa) == "[Document: file]"
    ensures wa.msgType != "text" && !(wa.msgType == "image" && wa.body.imageCaption.Some? && wa.body.imageCaption.value != "") ==>
      |Preview(wa)| >= 2 && Preview(wa)[0] == '[' && Preview(wa)[|Preview(wa)| - 1] == ']'
    ensures wa.msgType !in {"text", "image", "audio", "video", "document"} ==> Preview(wa) == "[" + wa.msgType + "]"
  {
  }

  /** The first entry whose wa_id is the sender gives the name; no such entry gives null. */
  lemma {:induction false} ProfileNameFindsFirst(infos: seq<WaContact>, from: string)
    ensures ProfileName(infos, from).Some? ==> exists i :: 0 <= i < |infos| && infos[i].waId == from
    ensures forall i :: 0 <= i < |infos| && infos[i].waId == from && (forall j :: 0 <= j < i ==> infos[j].waId != from) ==>
      ProfileName(infos, from) == infos[i].profileName
  {
    if infos != [] && infos[0].waId != from {
      ProfileNameFindsFirst(infos[1..], from);
      forall i | 0 < i < |infos| && infos[i].waId == from && (forall j :: 0 <= j < i ==> infos[j].waId != from)
        ensures ProfileName(infos, from) == infos[i].profileName
      {
        assert infos[1..][i - 1] == infos[i];
        assert forall j :: 0 <= j < i - 1 ==> infos[1..][j].waId != from by {
          forall j | 0 <= j < i - 1 ensures infos[1..][j].waId != from {
            assert infos[1..][j] == infos[j + 1];
          }
        }
      }
      if ProfileName(infos, from).Some? {
        var i :| 0 <= i < |infos[1..]| && infos[1..][i].waId == from;
        assert infos[i + 1].waId == from;
      }
    }
  }

  // ---------------------------------------------------------------------------------------------
  // Replies and statuses

  /**
   * Marking a reply sets the time and status of the campaign's still-unreplied rows for the contact;
   * a row that already has a reply time is left as it is, and so is every other row.
   */
  lemma FirstReplyWins(rows: seq<RecipientRow>, campaignId: nat, contactId: nat, now: string)
    ensures var r := MarkReplied(rows, campaignId, contactId, now);
      |r| == |rows|
      && (forall i :: 0 <= i < |rows| && rows[i].repliedAt.Some? ==> r[i] == rows[i])
      && (forall i :: 0 <= i < |rows| && (rows[i].campaignId != campaignId || rows[i].contactId != contactId) ==> r[i] == rows[i])
      && (forall i :: 0 <= i < |rows| && rows[i].campaignId == campaignId && rows[i].contactId == contactId && rows[i].repliedAt.None? ==>
            r[i] == rows[i].(repliedAt := Some(now), status := "replied"))
  {
  }

  /** A later reply from the same contact to the same campaign changes nothing. */
  lemma LaterReplyChangesNothing(rows: seq<RecipientRow>, campaignId: nat, contactId: nat, first: string, later: string)
    ensures var once := MarkReplied(rows, campaignId, contactId, first);
      MarkReplied(once, campaignId, contactId, later) == once
  {
  }

  /** A status update rewrites only the status, only of the rows with that wamid, whatever the old status was. */
  lemma StatusOverwrites(rows: seq<MessageRow>, wamid: string, status: string)
    ensures var r := SetStatus(rows, wamid, status);
      |r| == |rows|
      && (forall i :: 0 <= i < |rows| && rows[i].wamid == Some(wamid) ==> r[i] == rows[i].(status := status))
      && (forall i :: 0 <= i < |rows| && rows[i].wamid != Some(wamid) ==> r[i] == rows[i])
  {
  }

  /** Of two status updates for one message, the later one wins, even when it moves the status backwards. */
  lemma LastStatusWins(rows: seq<MessageRow>, wamid: string, s1: string, s2: string)
    ensures SetStatus(SetStatus(rows, wamid, s1), wamid, s2) == SetStatus(rows, wamid, s2)
  {
  }

  // ---------------------------------------------------------------------------------------------
  // The contact upsert on the literal phone

  /**
   * After the upsert exactly the row holding the phone carries the profile name (null erasing a stored
   * name) and the opt flag of the change; a phone not stored is added, and nothing else changes.
   */
  lemma UpsertContactEffect(rows: seq<ContactRow>, nextId: nat, phone: string, name: Option<string>, change: Option<OptChange>)
    requires ContactsOk(rows, nextId)
    ensures var u := UpsertContact(rows, nextId, phone, name, change);
      ContactsOk(u.rows, u.nextId)
      && u.contact.phone == phone && u.contact.name == name && u.contact in u.rows
      && (forall k :: 0 <= k < |rows| && rows[k].phone == phone ==>
            u.rows == rows[k := u.contact] && u.nextId == nextId && u.contact.id == rows[k].id
            && u.contact.optedOut == OptedOutAfter(change, rows[k].optedOut))
      && ((forall k :: 0 <= k < |rows| ==> rows[k].phone != phone) ==>
            u.rows == rows + [u.contact] && u.nextId == nextId + 1
            && u.contact == ContactRow(nextId, phone, name, change == Some(OptOut)))
  {
    var u := UpsertContact(rows, nextId, phone, name, change);
    var k := PhoneIndex(rows, phone);
    if k >= 0 {
      assert u.rows[k] == u.contact;
    } else {
      assert u.rows[|rows|] == u.contact;
    }
  }

  /** The webhook does not resolve prefixes: a stored short number gets a second contact for the full one. */
  lemma WebhookKeepsLiteralPhones()
    ensures UpsertContact([ContactRow(7, "1167910548", None, false)], 8, "541167910548", None, None).rows
      == [ContactRow(7, "1167910548", None, false), ContactRow(8, "541167910548", None, false)]
  {
    assert PhoneIndex([ContactRow(7, "1167910548", None, false)], "541167910548") == -1 by {
      assert "1167910548" != "541167910548";
    }
  }

  // ---------------------------------------------------------------------------------------------
  // One inbound message against the store

  /** At most one conversation per contact: what find-or-create relies on, though the store does not enforce it. */
  predicate OneConversationPerContact(rows: seq<ConversationRow>) {
    forall i, j :: 0 <= i < j < |rows| ==> rows[i].contactId != rows[j].contactId
  }

  lemma ConversationQuery(rows: seq<ConversationRow>, contactId: nat)
    requires OneConversationPerContact(rows)
    ensures forall k :: 0 <= k < |rows| && rows[k].contactId == contactId ==> Filter(rows, ContactIdIs(contactId)) == [rows[k]]
    ensures (forall k :: 0 <= k < |rows| ==> rows[k].contactId != contactId) ==> Filter(rows, ContactIdIs(contactId)) == []
  {
    FilterSingle(rows, ContactIdIs(contactId));
    forall k | 0 <= k < |rows| && rows[k].contactId == contactId
      ensures Filter(rows, ContactIdIs(contactId)) == [rows[k]]
    {
      assert OnlyMatch(rows, ContactIdIs(contactId), k);
    }
    if forall k :: 0 <= k < |rows| ==> rows[k].contactId != contactId {
      FilterNone(rows, ContactIdIs(contactId));
    }
  }

  lemma ReplaceConversationById(rows: seq<ConversationRow>, nextId: nat, j: nat, updated: ConversationRow)
    requires ConversationsOk(rows, nextId) && j < |rows| && updated.id == rows[j].id
    ensures ReplaceConversationRow(rows, updated) == rows[j := updated]
  {
  }

  /** The message upsert keeps ids and wamids unique: an existing wamid is overwritten in place. */
  lemma UpsertInboundEffect(t: Tables, conversationId: nat, wa: WaMessage)
    requires MessagesOk(t.messages, t.nextId) && conversationId < t.nextId
    ensures var r := UpsertInbound(t, conversationId, wa);
      MessagesOk(r.messages, r.nextId) && t.nextId <= r.nextId
      && (forall k :: 0 <= k < |t.messages| && t.messages[k].wamid == Some(wa.id) ==>
            r.messages == t.messages[k := InboundRow(t.messages[k].id, conversationId, wa)] && r.nextId == t.nextId)
      && ((forall k :: 0 <= k < |t.messages| ==> t.messages[k].wamid != Some(wa.id)) ==>
            r.messages == t.messages + [InboundRow(t.nextId, conversationId, wa)] && r.nextId == t.nextId + 1)
      && r == t.(messages := r.messages, nextId := r.nextId)
  {
  }

  /** Step 1 keeps the constraints and yields a stored contact for the sender. */
  lemma ContactStep(t: Tables, wa: WaMessage, infos: seq<WaContact>)
    requires TablesOk(t)
    ensures var up := UpsertContact(t.contacts, t.nextId, wa.from, ProfileName(infos, wa.from), MessageOptChange(wa));
      TablesOk(t.(contacts := up.rows, nextId := up.nextId))
      && up.contact in up.rows && up.contact.id < up.nextId && up.contact.phone == wa.from && t.nextId <= up.nextId
  {
    UpsertContactEffect(t.contacts, t.nextId, wa.from, ProfileName(infos, wa.from), MessageOptChange(wa));
  }

  /** Step 2 keeps the constraints; the conversation it lands on belongs to the contact and is stored. */
  lemma LandingStep(t: Tables, contactId: nat)
    requires TablesOk(t) && contactId < t.nextId
    ensures var l := FindOrOpenConversation(t, contactId);
      TablesOk(l.tables) && t.nextId <= l.tables.nextId
      && l.tables == t.(conversations := l.tables.conversations, nextId := l.tables.nextId)
      && (l.conversation.Some? ==> l.conversation.value in l.tables.conversations && l.conversation.value.contactId == contactId)
      && (OneConversationPerContact(t.conversations) ==> OneConversationPerContact(l.tables.conversations))
  {
    if ConversationsTable !in t.down {
      if |Filter(t.conversations, ContactIdIs(contactId))| == 1 {
        FoundConversation(t, contactId);
      } else {
        OpenedConversation(t, contactId);
        OpenedKeepsValid(t, contactId);
      }
    }
  }

  /** The one conversation the query matched belongs to the contact. */
  lemma FoundConversation(t: Tables, contactId: nat)
    requires ConversationsTable !in t.down && |Filter(t.conversations, ContactIdIs(contactId))| == 1
    ensures var m := Filter(t.conversations, ContactIdIs(contactId))[0];
      FindOrOpenConversation(t, contactId) == Landing(t, Some(m)) && m in t.conversations && m.contactId == contactId
  {
    var matches := Filter(t.conversations, ContactIdIs(contactId));
    FilterMembers(t.conversations, ContactIdIs(contactId));
    assert matches[0] in matches;
  }

  /** Otherwise a conversation is inserted under a fresh id; with one conversation per contact before, none matched. */
  lemma OpenedConversation(t: Tables, contactId: nat)
    requires ConversationsTable !in t.down && |Filter(t.conversations, ContactIdIs(contactId))| != 1
    ensures var conv := NewConversation(t.nextId, contactId);
      var r := t.(conversations := t.conversations + [conv], nextId := t.nextId + 1);
      FindOrOpenConversation(t, contactId) == Landing(r, Some(conv))
      && (OneConversationPerContact(t.conversations) ==> OneConversationPerContact(r.conversations))
  {
    if OneConversationPerContact(t.conversations) {
      ConversationQuery(t.conversations, contactId);
    }
  }

  /** The inserted conversation keeps the store's constraints. */
  lemma OpenedKeepsValid(t: Tables, contactId: nat)
    requires TablesOk(t) && contactId < t.nextId
    ensures TablesOk(t.(conversations := t.conversations + [NewConversation(t.nextId, contactId)], nextId := t.nextId + 1))
  {
    var conv := NewConversation(t.nextId, contactId);
    ConversationsSnoc(t.conversations, t.nextId, conv);
    WithConversations(t, t.conversations + [conv], t.nextId + 1);
  }

  /** Step 5 keeps the constraints: the summary keeps the conversation's id and contact. */
  lemma SummaryStep(t: Tables, conv: ConversationRow, wa: WaMessage)
    requires TablesOk(t) && conv in t.conversations
    ensures var r := t.(conversations := ReplaceConversationRow(t.conversations, Summarised(conv, wa)));
      TablesOk(r)
      && (OneConversationPerContact(t.conversations) ==> OneConversationPerContact(r.conversations))
  {
    var j :| 0 <= j < |t.conversations| && t.conversations[j] == conv;
    ReplaceConversationById(t.conversations, t.nextId, j, Summarised(conv, wa));
  }

  /** Steps 4-6 keep the constraints and one conversation per contact. */
  lemma RecordStep(t: Tables, conv: ConversationRow, contactId: nat, wa: WaMessage, now: string)
    requires TablesOk(t) && conv in t.conversations
    ensures var r := RecordMessage(t, conv, contactId, wa, now);
      TablesOk(r) && r.down == t.down && t.nextId <= r.nextId
      && (OneConversationPerContact(t.conversations) ==> OneConversationPerContact(r.conversations))
  {
    var t3 := if MessagesTable in t.down then t else UpsertInbound(t, conv.id, wa);
    MessageStep(t, conv, wa);
    SummaryStep(t3, conv, wa);
    var t4 := t3.(conversations := ReplaceConversationRow(t3.conversations, Summarised(conv, wa)));
    if IsReplyToCampaign(conv) && RecipientsTable !in t.down {
      MarkRepliedKeepsValid(t4, conv.campaignId.value, contactId, now);
    }
  }

  /** Step 4 keeps the constraints and changes only the messages and the counter. */
  lemma MessageStep(t: Tables, conv: ConversationRow, wa: WaMessage)
    requires TablesOk(t) && conv in t.conversations
    ensures var t3 := if MessagesTable in t.down then t else UpsertInbound(t, conv.id, wa);
      TablesOk(t3) && t3.down == t.down && t3.conversations == t.conversations && t.nextId <= t3.nextId && conv in t3.conversations
  {
    if MessagesTable !in t.down {
      UpsertInboundEffect(t, conv.id, wa);
      var t3 := UpsertInbound(t, conv.id, wa);
      WithMessages(t, t3.messages, t3.nextId);
    }
  }

  /** Step 6 keeps the constraints: it changes only recipients' status and reply time. */
  lemma MarkRepliedKeepsValid(t: Tables, campaignId: nat, contactId: nat, now: string)
    requires TablesOk(t)
    ensures TablesOk(t.(recipients := MarkReplied(t.recipients, campaignId, contactId, now)))
  {
    var rows := MarkReplied(t.recipients, campaignId, contactId, now);
    assert forall i :: 0 <= i < |rows| ==>
      (rows[i].id == t.recipients[i].id && rows[i].campaignId == t.recipients[i].campaignId
       && rows[i].contactId == t.recipients[i].contactId);
  }

  /** Every step of the handler keeps the store's constraints. */
  lemma ProcessMessageKeepsValid(t: Tables, wa: WaMessage, infos: seq<WaContact>, now: string)
    requires TablesOk(t)
    ensures var r := ProcessMessage(t, wa, infos, now);
      TablesOk(r) && r.down == t.down && t.nextId <= r.nextId
  {
    if ContactsTable !in t.down {
      var up := UpsertContact(t.contacts, t.nextId, wa.from, ProfileName(infos, wa.from), MessageOptChange(wa));
      ContactStep(t, wa, infos);
      var t1 := t.(contacts := up.rows, nextId := up.nextId);
      LandingStep(t1, up.contact.id);
      var landing := FindOrOpenConversation(t1, up.contact.id);
      if landing.conversation.Some? {
        RecordStep(landing.tables, landing.conversation.value, up.contact.id, wa, now);
        assert ProcessMessage(t, wa, infos, now) == RecordMessage(landing.tables, landing.conversation.value, up.contact.id, wa, now);
      }
    }
  }

  /** The handler never gives a contact a second conversation. */
  lemma ProcessMessageKeepsOne(t: Tables, wa: WaMessage, infos: seq<WaContact>, now: string)
    requires TablesOk(t) && OneConversationPerContact(t.conversations)
    ensures OneConversationPerContact(ProcessMessage(t, wa, infos, now).conversations)
  {
    if ContactsTable !in t.down {
      var up := UpsertContact(t.contacts, t.nextId, wa.from, ProfileName(infos, wa.from), MessageOptChange(wa));
      ContactStep(t, wa, infos);
      var t1 := t.(contacts := up.rows, nextId := up.nextId);
      LandingStep(t1, up.contact.id);
      var landing := FindOrOpenConversation(t1, up.contact.id);
      if landing.conversation.Some? {
        RecordStep(landing.tables, landing.conversation.value, up.contact.id, wa, now);
        assert ProcessMessage(t, wa, infos, now) == RecordMessage(landing.tables, landing.conversation.value, up.contact.id, wa, now);
      }
    }
  }

  /**
   * A message from a stored number lands on that contact's conversation: one more unread, the
   * preview and time updated, unarchived only if it was archived and campaign-linked (an archived
   * conversation without a campaign stays archived), and then the recipient marked replied. The
   * message row is added, or overwritten in place when its wamid is already stored.
   */
  lemma MessageToKnownContact(t: Tables, wa: WaMessage, infos: seq<WaContact>, now: string, c: nat, j: nat)
    requires TablesOk(t) && t.down == {} && OneConversationPerContact(t.conversations)
    requires c < |t.contacts| && t.contacts[c].phone == wa.from
    requires j < |t.conversations| && t.conversations[j].contactId == t.contacts[c].id
    ensures var r := ProcessMessage(t, wa, infos, now); var conv := t.conversations[j];
      |r.contacts| == |t.contacts| && r.contacts[c].id == t.contacts[c].id && r.contacts[c].phone == wa.from
      && r.conversations == t.conversations[j := Summarised(conv, wa)]
      && r.conversations[j].archived == (conv.archived && conv.campaignId.None?)
      && r.conversations[j].unreadCount == Some(conv.unreadCount.GetOr(0) + 1)
      && r.conversations[j].lastMessage == Some(Preview(wa))
      && r.recipients == (if IsReplyToCampaign(conv)
                          then MarkReplied(t.recipients, conv.campaignId.value, t.contacts[c].id, now)
                          else t.recipients)
      && (forall k :: 0 <= k < |t.messages| && t.messages[k].wamid == Some(wa.id) ==>
            r.messages == t.messages[k := InboundRow(t.messages[k].id, conv.id, wa)] && r.nextId == t.nextId)
      && ((forall k :: 0 <= k < |t.messages| ==> t.messages[k].wamid != Some(wa.id)) ==>
            r.messages == t.messages + [InboundRow(t.nextId, conv.id, wa)] && r.nextId == t.nextId + 1)
  {
    var up := UpsertContact(t.contacts, t.nextId, wa.from, ProfileName(infos, wa.from), MessageOptChange(wa));
    KnownSenderLands(t, wa, infos, now, c, j);
    RecordInPlace(t.(contacts := up.rows), j, t.contacts[c].id, wa, now);
  }

  /** The sender's stored row keeps its id and no row or id is added, so the message is recorded on the contact's conversation. */
  lemma KnownSenderLands(t: Tables, wa: WaMessage, infos: seq<WaContact>, now: string, c: nat, j: nat)
    requires TablesOk(t) && t.down == {} && OneConversationPerContact(t.conversations)
    requires c < |t.contacts| && t.contacts[c].phone == wa.from
    requires j < |t.conversations| && t.conversations[j].contactId == t.contacts[c].id
    ensures var up := UpsertContact(t.contacts, t.nextId, wa.from, ProfileName(infos, wa.from), MessageOptChange(wa));
      up.nextId == t.nextId && |up.rows| == |t.contacts| && up.rows[c].id == t.contacts[c].id && up.rows[c].phone == wa.from
      && ProcessMessage(t, wa, infos, now) == RecordMessage(t.(contacts := up.rows), t.conversations[j], t.contacts[c].id, wa, now)
  {
    var up := UpsertContact(t.contacts, t.nextId, wa.from, ProfileName(infos, wa.from), MessageOptChange(wa));
    UpsertContactEffect(t.contacts, t.nextId, wa.from, ProfileName(infos, wa.from), MessageOptChange(wa));
    var t1 := t.(contacts := up.rows, nextId := up.nextId);
    assert t1 == t.(contacts := up.rows);
    ConversationQuery(t1.conversations, up.contact.id);
    assert FindOrOpenConversation(t1, up.contact.id) == Landing(t1, Some(t.conversations[j]));
  }

  /** Steps 4-6 on a stored conversation: the summary replaces it in place, the message is upserted on its wamid. */
  lemma RecordInPlace(t: Tables, j: nat, contactId: nat, wa: WaMessage, now: string)
    requires ConversationsOk(t.conversations, t.nextId) && MessagesOk(t.messages, t.nextId) && t.down == {}
    requires j < |t.conversations|
    ensures var r := RecordMessage(t, t.conversations[j], contactId, wa, now); var conv := t.conversations[j];
      r.contacts == t.contacts
      && r.conversations == t.conversations[j := Summarised(conv, wa)]
      && r.recipients == (if IsReplyToCampaign(conv) then MarkReplied(t.recipients, conv.campaignId.value, contactId, now)
                          else t.recipients)
      && (forall k :: 0 <= k < |t.messages| && t.messages[k].wamid == Some(wa.id) ==>
            r.messages == t.messages[k := InboundRow(t.messages[k].id, conv.id, wa)] && r.nextId == t.nextId)
      && ((forall k :: 0 <= k < |t.messages| ==> t.messages[k].wamid != Some(wa.id)) ==>
            r.messages == t.messages + [InboundRow(t.nextId, conv.id, wa)] && r.nextId == t.nextId + 1)
  {
    var conv := t.conversations[j];
    UpsertInboundEffect(t, conv.id, wa);
    var t3 := UpsertInbound(t, conv.id, wa);
    ReplaceConversationById(t3.conversations, t3.nextId, j, Summarised(conv, wa));
  }

  /**
   * The first message from an unknown number creates its contact (named by the profile, opted out
   * only by an opt-out keyword) and a fresh conversation, not archived, with one unread message.
   */
  lemma MessageFromNewNumber(t: Tables, wa: WaMessage, infos: seq<WaContact>, now: string)
    requires ContactsOk(t.contacts, t.nextId) && ConversationsOk(t.conversations, t.nextId) && t.down == {}
    requires forall c :: 0 <= c < |t.contacts| ==> t.contacts[c].phone != wa.from
    ensures var r := ProcessMessage(t, wa, infos, now); var n := t.nextId;
      var c := Summarised(NewConversation(n + 1, n), wa);
      && r.contacts == t.contacts + [ContactRow(n, wa.from, ProfileName(infos, wa.from), MessageOptChange(wa) == Some(OptOut))]
      && r.conversations == t.conversations + [c]
      && c.contactId == n && !c.archived && c.unreadCount == Some(1)
      && r.recipients == t.recipients
  {
    var n := t.nextId;
    var name := ProfileName(infos, wa.from);
    var row := ContactRow(n, wa.from, name, MessageOptChange(wa) == Some(OptOut));
    var conv := NewConversation(n + 1, n);
    var up := UpsertContact(t.contacts, t.nextId, wa.from, name, MessageOptChange(wa));
    NewContactRow(t.contacts, n, wa.from, name, MessageOptChange(wa));
    var t1 := t.(contacts := up.rows, nextId := up.nextId);
    NoConversationYet(t1, n);
    var landing := FindOrOpenConversation(t1, up.contact.id);
    var t2 := t1.(conversations := t.conversations + [conv], nextId := n + 2);
    assert landing == Landing(t2, Some(conv));
    assert ProcessMessage(t, wa, infos, now) == RecordMessage(landing.tables, landing.conversation.value, up.contact.id, wa, now);
    RecordInNewConversation(t2, t.conversations, conv, n, wa, now);
  }

  /** An upsert on a phone no row has inserts a row under the next id. */
  lemma NewContactRow(rows: seq<ContactRow>, nextId: nat, phone: string, name: Option<string>, change: Option<OptChange>)
    requires forall c :: 0 <= c < |rows| ==> rows[c].phone != phone
    ensures var row := ContactRow(nextId, phone, name, change == Some(OptOut));
      UpsertContact(rows, nextId, phone, name, change) == ContactUpsert(rows + [row], nextId + 1, row)
  {
    assert PhoneIndex(rows, phone) == -1;
  }

  /** A contact id above every stored conversation's contact id has no conversation, so one is opened. */
  lemma NoConversationYet(t: Tables, contactId: nat)
    requires ConversationsOk(t.conversations, contactId) && ConversationsTable !in t.down
    ensures var conv := NewConversation(t.nextId, contactId);
      FindOrOpenConversation(t, contactId)
        == Landing(t.(conversations := t.conversations + [conv], nextId := t.nextId + 1), Some(conv))
  {
    FilterNone(t.conversations, ContactIdIs(contactId));
  }

  /** Recording in a just-opened conversation (the last row, its id above the others) summarises only that row. */
  lemma RecordInNewConversation(t: Tables, prev: seq<ConversationRow>, conv: ConversationRow, contactId: nat,
                                wa: WaMessage, now: string)
    requires t.conversations == prev + [conv]
    requires forall i :: 0 <= i < |prev| ==> prev[i].id < conv.id
    requires MessagesTable !in t.down && !conv.archived
    ensures var r := RecordMessage(t, conv, contactId, wa, now);
      && r.contacts == t.contacts && r.recipients == t.recipients
      && r.conversations == prev + [Summarised(conv, wa)]
  {
    var t3 := UpsertInbound(t, conv.id, wa);
    assert t3.conversations == t.conversations && t3.contacts == t.contacts && t3.recipients == t.recipients;
    assert ReplaceConversationRow(t.conversations, Summarised(conv, wa)) == prev + [Summarised(conv, wa)];
  }

  /** Steps 4-6 leave the message row in the conversation and the conversation's summary stored. */
  lemma RecordStores(t: Tables, conv: ConversationRow, contactId: nat, wa: WaMessage, now: string)
    requires TablesOk(t) && MessagesTable !in t.down && conv in t.conversations
    ensures var r := RecordMessage(t, conv, contactId, wa, now);
      r.contacts == t.contacts
      && (exists k :: 0 <= k < |r.messages| && r.messages[k] == InboundRow(r.messages[k].id, conv.id, wa))
      && (exists j :: 0 <= j < |r.conversations| && r.conversations[j] == Summarised(conv, wa))
  {
    UpsertInboundEffect(t, conv.id, wa);
    var t3 := UpsertInbound(t, conv.id, wa);
    var w := WamidIndex(t.messages, wa.id);
    if w >= 0 {
      assert t3.messages[w] == InboundRow(t3.messages[w].id, conv.id, wa);
    } else {
      assert t3.messages[|t.messages|] == InboundRow(t3.messages[|t.messages|].id, conv.id, wa);
    }
    var j :| 0 <= j < |t3.conversations| && t3.conversations[j] == conv;
    ReplaceConversationById(t3.conversations, t3.nextId, j, Summarised(conv, wa));
    assert ReplaceConversationRow(t3.conversations, Summarised(conv, wa))[j] == Summarised(conv, wa);
  }

  lemma WamidUnique(rows: seq<MessageRow>, nextId: nat, k: nat)
    requires MessagesOk(rows, nextId) && k < |rows| && rows[k].wamid.Some?
    ensures forall i :: 0 <= i < |rows| && i != k ==> rows[i].wamid != rows[k].wamid
  {
  }

  /** Where the message, its conversation and its sender end up. */
  lemma StoredAt(t: Tables, wa: WaMessage, infos: seq<WaContact>, now: string) returns (k: nat, j: nat, c: nat)
    requires TablesOk(t) && t.down == {}
    ensures var r := ProcessMessage(t, wa, infos, now);
      k < |r.messages| && j < |r.conversations| && c < |r.contacts|
      && r.messages[k] == InboundRow(r.messages[k].id, r.conversations[j].id, wa)
      && r.conversations[j].contactId == r.contacts[c].id && r.contacts[c].phone == wa.from
  {
    var up := UpsertContact(t.contacts, t.nextId, wa.from, ProfileName(infos, wa.from), MessageOptChange(wa));
    ContactStep(t, wa, infos);
    var t1 := t.(contacts := up.rows, nextId := up.nextId);
    LandingStep(t1, up.contact.id);
    var landing := FindOrOpenConversation(t1, up.contact.id);
    var conv := landing.conversation.value;
    RecordStores(landing.tables, conv, up.contact.id, wa, now);
    var r := RecordMessage(landing.tables, conv, up.contact.id, wa, now);
    assert ProcessMessage(t, wa, infos, now) == r;
    k :| 0 <= k < |r.messages| && r.messages[k] == InboundRow(r.messages[k].id, conv.id, wa);
    j :| 0 <= j < |r.conversations| && r.conversations[j] == Summarised(conv, wa);
    c :| 0 <= c < |up.rows| && up.rows[c] == up.contact;
  }

  /**
   * After any inbound message, its wamid is held by exactly one message row, inbound and
   * "delivered", in a conversation of a contact whose phone is the sender's.
   */
  lemma MessageIsStoredOnce(t: Tables, wa: WaMessage, infos: seq<WaContact>, now: string)
    requires TablesOk(t) && t.down == {}
    ensures var r := ProcessMessage(t, wa, infos, now);
      exists k, j, c :: 0 <= k < |r.messages| && 0 <= j < |r.conversations| && 0 <= c < |r.contacts|
        && r.messages[k] == InboundRow(r.messages[k].id, r.conversations[j].id, wa)
        && (forall i :: 0 <= i < |r.messages| && i != k ==> r.messages[i].wamid != Some(wa.id))
        && r.conversations[j].contactId == r.contacts[c].id && r.contacts[c].phone == wa.from
  {
    var r := ProcessMessage(t, wa, infos, now);
    var k, j, c := StoredAt(t, wa, infos, now);
    ProcessMessageKeepsValid(t, wa, infos, now);
    WamidUnique(r.messages, r.nextId, k);
  }

  /** After the first delivery the store holds the message in a conversation of the sender's contact, as a redelivery finds it. */
  lemma DeliveredOnce(t: Tables, wa: WaMessage, infos: seq<WaContact>, now: string) returns (k: nat, j: nat, c: nat)
    requires TablesOk(t) && t.down == {} && OneConversationPerContact(t.conversations)
    ensures var once := ProcessMessage(t, wa, infos, now);
      TablesOk(once) && once.down == {} && OneConversationPerContact(once.conversations)
      && c < |once.contacts| && once.contacts[c].phone == wa.from
      && j < |once.conversations| && once.conversations[j].contactId == once.contacts[c].id
      && k < |once.messages| && once.messages[k].wamid == Some(wa.id)
  {
    k, j, c := StoredAt(t, wa, infos, now);
    ProcessMessageKeepsValid(t, wa, infos, now);
    ProcessMessageKeepsOne(t, wa, infos, now);
  }

  /**
   * A redelivered message (its wamid already stored, in a conversation of the sender's contact, as
   * after the first delivery) adds no contact, conversation or message row, but the summary update
   * runs again: the conversation counts one more unread message.
   */
  lemma RedeliveryAddsNoRows(once: Tables, wa: WaMessage, infos: seq<WaContact>, later: string, k: nat, j: nat, c: nat)
    requires TablesOk(once) && once.down == {} && OneConversationPerContact(once.conversations)
    requires c < |once.contacts| && once.contacts[c].phone == wa.from
    requires j < |once.conversations| && once.conversations[j].contactId == once.contacts[c].id
    requires k < |once.messages| && once.messages[k].wamid == Some(wa.id)
    ensures var twice := ProcessMessage(once, wa, infos, later);
      |twice.contacts| == |once.contacts| && |twice.conversations| == |once.conversations|
      && |twice.messages| == |once.messages| && twice.nextId == once.nextId
      && twice.conversations[j].unreadCount == Some(once.conversations[j].unreadCount.GetOr(0) + 1)
  {
    MessageToKnownContact(once, wa, infos, later, c, j);
  }

  // ---------------------------------------------------------------------------------------------
  // The batch: which changes run, where a run stops, and the constraints over a whole POST

  /** A status update changes status fields only, so the constraints hold afterwards. */
  lemma StatusKeepsValid(t: Tables, st: WaStatus)
    requires TablesOk(t)
    ensures var r := ApplyStatus(t, st); TablesOk(r) && r.down == t.down && r.nextId == t.nextId
  {
    if MessagesTable !in t.down {
      var rows := SetStatus(t.messages, st.id, st.status);
      assert forall i :: 0 <= i < |rows| ==>
        rows[i].id == t.messages[i].id && rows[i].wamid == t.messages[i].wamid
        && rows[i].conversationId == t.messages[i].conversationId;
    }
  }

  lemma {:induction false} MessagesKeepValid(t: Tables, msgs: seq<WaMessage>, infos: seq<WaContact>, now: string)
    requires TablesOk(t)
    ensures var r := ApplyMessages(t, msgs, infos, now); TablesOk(r) && r.down == t.down
    decreases |msgs|
  {
    if msgs != [] {
      ProcessMessageKeepsValid(t, msgs[0], infos, now);
      MessagesKeepValid(ProcessMessage(t, msgs[0], infos, now), msgs[1..], infos, now);
    }
  }

  lemma {:induction false} StatusesKeepValid(t: Tables, statuses: seq<WaStatus>)
    requires TablesOk(t)
    ensures var r := ApplyStatuses(t, statuses); TablesOk(r) && r.down == t.down
    decreases |statuses|
  {
    if statuses != [] {
      StatusKeepsValid(t, statuses[0]);
      StatusesKeepValid(ApplyStatus(t, statuses[0]), statuses[1..]);
    }
  }

  lemma {:induction false} ChangesKeepValid(t: Tables, changes: seq<Change>, now: string)
    requires TablesOk(t)
    ensures var r := ApplyChanges(t, changes, now); TablesOk(r.tables) && r.tables.down == t.down
    decreases |changes|
  {
    if changes != [] && changes[0].field == "messages" && changes[0].value.Some? {
      var v := changes[0].value.value;
      MessagesKeepValid(t, v.messages.GetOr([]), v.contacts.GetOr([]), now);
      StatusesKeepValid(ApplyMessages(t, v.messages.GetOr([]), v.contacts.GetOr([]), now), v.statuses.GetOr([]));
      ChangesKeepValid(ApplyValue(t, v, now), changes[1..], now);
    } else if changes != [] && changes[0].field != "messages" {
      ChangesKeepValid(t, changes[1..], now);
    }
  }

  lemma {:induction false} EntriesKeepValid(t: Tables, entries: seq<Entry>, now: string)
    requires TablesOk(t)
    ensures var r := ApplyEntries(t, entries, now); TablesOk(r.tables) && r.tables.down == t.down
    decreases |entries|
  {
    if entries != [] {
      var r := ApplyChanges(t, entries[0].changes.GetOr([]), now);
      ChangesKeepValid(t, entries[0].changes.GetOr([]), now);
      if !r.aborted {
        EntriesKeepValid(r.tables, entries[1..], now);
      }
    }
  }

  /** Every POST, whatever its payload, leaves the store's constraints holding. */
  lemma HandleEventsKeepsValid(t: Tables, body: Option<Payload>, now: string)
    requires TablesOk(t)
    ensures TablesOk(HandleEvents(t, body, now))
  {
    if body.Some? {
      EntriesKeepValid(t, body.value.entry.GetOr([]), now);
    }
  }

  /** Changes whose field is not "messages" are skipped: a list of them changes nothing and does not stop the run. */
  lemma {:induction false} OtherFieldsSkipped(t: Tables, changes: seq<Change>, now: string)
    requires forall i :: 0 <= i < |changes| ==> changes[i].field != "messages"
    ensures ApplyChanges(t, changes, now) == Run(t, false)
    decreases |changes|
  {
    if changes != [] {
      OtherFieldsSkipped(t, changes[1..], now);
    }
  }

  /** Running two lists of changes one after the other: the second runs only when the first did not stop. */
  lemma {:induction false} ChangesAppend(t: Tables, a: seq<Change>, b: seq<Change>, now: string)
    ensures var r := ApplyChanges(t, a, now);
      ApplyChanges(t, a + b, now) == if r.aborted then r else ApplyChanges(r.tables, b, now)
    decreases |a|
  {
    if a != [] {
      assert (a + b)[1..] == a[1..] + b;
      if a[0].field != "messages" {
        ChangesAppend(t, a[1..], b, now);
      } else if a[0].value.Some? {
        ChangesAppend(ApplyValue(t, a[0].value.value, now), a[1..], b, now);
      }
    } else {
      assert a + b == b;
    }
  }

  /**
   * A "messages" change without a value, after changes that are all skipped, stops the run with
   * the store untouched; nothing after it runs.
   */
  lemma MissingValueStops(t: Tables, skipped: seq<Change>, rest: seq<Change>, now: string)
    requires forall i :: 0 <= i < |skipped| ==> skipped[i].field != "messages"
    ensures ApplyChanges(t, skipped + [Change("messages", None)] + rest, now) == Run(t, true)
  {
    OtherFieldsSkipped(t, skipped, now);
    ChangesAppend(t, skipped, [Change("messages", None)] + rest, now);
    assert skipped + [Change("messages", None)] + rest == skipped + ([Change("messages", None)] + rest);
  }

  /** Once an entry stops the run, no later entry is applied. */
  lemma {:induction false} StoppedRunEnds(t: Tables, entries: seq<Entry>, more: seq<Entry>, now: string)
    requires ApplyEntries(t, entries, now).aborted
    ensures ApplyEntries(t, entries + more, now) == ApplyEntries(t, entries, now)
    decreases |entries|
  {
    assert entries != [];
    assert (entries + more)[1..] == entries[1..] + more;
    var r := ApplyChanges(t, entries[0].changes.GetOr([]), now);
    if !r.aborted {
      StoppedRunEnds(r.tables, entries[1..], more, now);
    }
  }
}
