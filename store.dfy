/**
 * The hosted Postgres store the API routes talk to, as in-memory tables. Row ids come from one
 * counter; a table listed in `down` stands for a store failure on it: a select finds nothing,
 * an update or insert writes nothing, and a call that checks its error gets one.
 */
module Store {
  import opened Wrappers
  import opened Types
  import opened Lists

  datatype Table = ContactsTable | ConversationsTable | MessagesTable | RecipientsTable
                 | TagsTable | TemplatesTable | CampaignsTable

  datatype ContactRow = ContactRow(id: nat, phone: string, name: Option<string>, optedOut: bool)

  datatype ConversationRow = ConversationRow(
    id: nat,
    contactId: nat,
    campaignId: Option<nat>,
    archived: bool,
    unreadCount: Option<int>,
    lastMessage: Option<string>,
    lastMessageAt: Option<string>)

  /** A stored message; `content` keeps the keys of the provider's message object that the dashboard reads. */
  datatype MessageRow = MessageRow(
    id: nat,
    conversationId: nat,
    wamid: Option<string>,
    direction: Direction,
    msgType: string,
    content: Content,
    status: string)

  datatype RecipientRow = RecipientRow(
    id: nat,
    campaignId: nat,
    contactId: nat,
    status: string,
    repliedAt: Option<string>)

  datatype TagRow = TagRow(id: nat, name: string, normalizedName: string, color: string, createdBy: string)

  datatype TemplateRow = TemplateRow(
    id: nat,
    name: string,
    language: string,
    category: Option<string>,
    components: seq<Component>,
    status: string,
    metaTemplateId: Option<string>)

  datatype CampaignRow = CampaignRow(
    id: nat,
    name: string,
    templateId: nat,
    tagId: nat,
    status: string,
    sentCount: nat,
    deliveredCount: nat,
    readCount: nat)

  /** A snapshot of the whole store. */
  datatype Tables = Tables(
    contacts: seq<ContactRow>,
    conversations: seq<ConversationRow>,
    messages: seq<MessageRow>,
    recipients: seq<RecipientRow>,
    tags: seq<TagRow>,
    templates: seq<TemplateRow>,
    campaigns: seq<CampaignRow>,
    nextId: nat,
    down: set<Table>)

  /** `.maybeSingle()` on the rows a query matched: the row when there is exactly one. */
  function MaybeSingle<T>(matches: seq<T>): (r: Option<T>)
    ensures r.Some? <==> |matches| == 1
    ensures r.Some? ==> r.value == matches[0]
  {
    if |matches| == 1 then Some(matches[0]) else None
  }

  // ---------------------------------------------------------------------------------------------
  // The store's constraints: ids issued by the counter, unique primary keys and unique columns

  predicate ContactsOk(rows: seq<ContactRow>, nextId: nat) {
    (forall i :: 0 <= i < |rows| ==> rows[i].id < nextId)
    && (forall i, j :: 0 <= i < j < |rows| ==> rows[i].id != rows[j].id && rows[i].phone != rows[j].phone)
  }

  predicate ConversationsOk(rows: seq<ConversationRow>, nextId: nat) {
    (forall i :: 0 <= i < |rows| ==> rows[i].id < nextId && rows[i].contactId < nextId)
    && (forall i, j :: 0 <= i < j < |rows| ==> rows[i].id != rows[j].id)
  }

  /** Message ids are unique, and so is every present wamid; each message names an issued conversation id. */
  predicate MessagesOk(rows: seq<MessageRow>, nextId: nat) {
    (forall i :: 0 <= i < |rows| ==> rows[i].id < nextId && rows[i].conversationId < nextId)
    && (forall i, j :: 0 <= i < j < |rows| ==>
          rows[i].id != rows[j].id && (rows[i].wamid.Some? ==> rows[i].wamid != rows[j].wamid))
  }

  /** Recipients name issued campaign and contact ids. */
  predicate RecipientsOk(rows: seq<RecipientRow>, nextId: nat) {
    (forall i :: 0 <= i < |rows| ==> rows[i].id < nextId && rows[i].campaignId < nextId && rows[i].contactId < nextId)
    && (forall i, j :: 0 <= i < j < |rows| ==> rows[i].id != rows[j].id)
  }

  predicate TagsOk(rows: seq<TagRow>, nextId: nat) {
    (forall i :: 0 <= i < |rows| ==> rows[i].id < nextId)
    && (forall i, j :: 0 <= i < j < |rows| ==>
          rows[i].id != rows[j].id && rows[i].normalizedName != rows[j].normalizedName)
  }

  predicate TemplatesOk(rows: seq<TemplateRow>, nextId: nat) {
    (forall i :: 0 <= i < |rows| ==> rows[i].id < nextId)
    && (forall i, j :: 0 <= i < j < |rows| ==> rows[i].id != rows[j].id && rows[i].name != rows[j].name)
  }

  /** Campaigns name issued template and tag ids. */
  predicate CampaignsOk(rows: seq<CampaignRow>, nextId: nat) {
    (forall i :: 0 <= i < |rows| ==> rows[i].id < nextId && rows[i].templateId < nextId && rows[i].tagId < nextId)
    && (forall i, j :: 0 <= i < j < |rows| ==> rows[i].id != rows[j].id)
  }

  predicate TablesOk(t: Tables) {
    ContactsOk(t.contacts, t.nextId) && ConversationsOk(t.conversations, t.nextId)
    && MessagesOk(t.messages, t.nextId) && RecipientsOk(t.recipients, t.nextId)
    && TagsOk(t.tags, t.nextId) && TemplatesOk(t.templates, t.nextId)
    && CampaignsOk(t.campaigns, t.nextId)
  }

  // ---------------------------------------------------------------------------------------------
  // Upserts on a unique column: the row holding the key is updated in place (its id kept),
  // otherwise a row is inserted under a fresh id; `.select().single()` returns the written row.

  datatype Upserted<T> = Upserted(rows: seq<T>, nextId: nat, row: T)

  function TagKeyIndex(rows: seq<TagRow>, key: string): (k: int)
    ensures -1 <= k < |rows|
    ensures k >= 0 ==> rows[k].normalizedName == key
    ensures k == -1 ==> forall j :: 0 <= j < |rows| ==> rows[j].normalizedName != key
  {
    if rows == [] then -1
    else if rows[0].normalizedName == key then 0
    else var k := TagKeyIndex(rows[1..], key); if k == -1 then -1 else k + 1
  }

  /** `chat_tags.upsert({name, normalized_name, color, created_by}, {onConflict: "normalized_name"})` */
  function UpsertTag(rows: seq<TagRow>, nextId: nat, name: string, key: string, color: string, createdBy: string)
    : Upserted<TagRow>
  {
    var k := TagKeyIndex(rows, key);
    if k >= 0 then
      var row := TagRow(rows[k].id, name, key, color, createdBy);
      Upserted(rows[k := row], nextId, row)
    else
      var row := TagRow(nextId, name, key, color, createdBy);
      Upserted(rows + [row], nextId + 1, row)
  }

  /**
   * The tag upsert keeps the constraints; afterwards the written row is the only one holding the key,
   * an existing key keeps its id and nothing else changes, and at most one row is added.
   */
  lemma UpsertTagEffect(rows: seq<TagRow>, nextId: nat, name: string, key: string, color: string, createdBy: string)
    requires TagsOk(rows, nextId)
    ensures var u := UpsertTag(rows, nextId, name, key, color, createdBy);
      && TagsOk(u.rows, u.nextId) && nextId <= u.nextId
      && u.row == TagRow(u.row.id, name, key, color, createdBy)
      && (exists k :: 0 <= k < |u.rows| && u.rows[k] == u.row)
      && (forall i :: 0 <= i < |u.rows| && u.rows[i].normalizedName == key ==> u.rows[i] == u.row)
      && (forall i :: 0 <= i < |rows| && rows[i].normalizedName != key ==> u.rows[i] == rows[i])
      && (forall i :: 0 <= i < |rows| && rows[i].normalizedName == key ==>
            u.row.id == rows[i].id && |u.rows| == |rows| && u.nextId == nextId)
      && ((forall i :: 0 <= i < |rows| ==> rows[i].normalizedName != key) ==>
            u.rows == rows + [u.row] && u.row.id == nextId && u.nextId == nextId + 1)
  {
    var k := TagKeyIndex(rows, key);
    var u := UpsertTag(rows, nextId, name, key, color, createdBy);
    if k >= 0 {
      assert u.rows[k] == u.row;
    } else {
      assert u.rows[|rows|] == u.row;
    }
  }

  function TemplateNameIndex(rows: seq<TemplateRow>, name: string): (k: int)
    ensures -1 <= k < |rows|
    ensures k >= 0 ==> rows[k].name == name
    ensures k == -1 ==> forall j :: 0 <= j < |rows| ==> rows[j].name != name
  {
    if rows == [] then -1
    else if rows[0].name == name then 0
    else var k := TemplateNameIndex(rows[1..], name); if k == -1 then -1 else k + 1
  }

  /** `templates.upsert({...}, {onConflict: "name"})`: every given column is written. */
  function UpsertTemplate(rows: seq<TemplateRow>, nextId: nat, given: TemplateRow): Upserted<TemplateRow> {
    var k := TemplateNameIndex(rows, given.name);
    if k >= 0 then
      var row := given.(id := rows[k].id);
      Upserted(rows[k := row], nextId, row)
    else
      var row := given.(id := nextId);
      Upserted(rows + [row], nextId + 1, row)
  }

  /** The template upsert keeps the constraints, and the written row is the only one with that name. */
  lemma UpsertTemplateEffect(rows: seq<TemplateRow>, nextId: nat, given: TemplateRow)
    requires TemplatesOk(rows, nextId)
    ensures var u := UpsertTemplate(rows, nextId, given);
      && TemplatesOk(u.rows, u.nextId) && nextId <= u.nextId
      && u.row == given.(id := u.row.id)
      && (exists k :: 0 <= k < |u.rows| && u.rows[k] == u.row)
      && (forall i :: 0 <= i < |u.rows| && u.rows[i].name == given.name ==> u.rows[i] == u.row)
      && (forall i :: 0 <= i < |rows| && rows[i].name != given.name ==> u.rows[i] == rows[i])
      && (forall i :: 0 <= i < |rows| && rows[i].name == given.name ==>
            u.row.id == rows[i].id && |u.rows| == |rows| && u.nextId == nextId)
      && ((forall i :: 0 <= i < |rows| ==> rows[i].name != given.name) ==>
            u.rows == rows + [u.row] && u.row.id == nextId && u.nextId == nextId + 1)
  {
    var k := TemplateNameIndex(rows, given.name);
    var u := UpsertTemplate(rows, nextId, given);
    if k >= 0 {
      assert u.rows[k] == u.row;
    } else {
      assert u.rows[|rows|] == u.row;
    }
  }

  /** Raising the counter keeps every constraint. */
  lemma TablesOkLater(t: Tables, nextId: nat)
    requires TablesOk(t) && t.nextId <= nextId
    ensures TablesOk(t.(nextId := nextId))
  {
  }

  /** Replacing one table by rows that meet its constraints under a counter that only grew keeps every constraint. */
  lemma WithContacts(t: Tables, rows: seq<ContactRow>, nextId: nat)
    requires TablesOk(t) && ContactsOk(rows, nextId) && t.nextId <= nextId
    ensures TablesOk(t.(contacts := rows, nextId := nextId))
  {
    TablesOkLater(t, nextId);
  }

  lemma WithConversations(t: Tables, rows: seq<ConversationRow>, nextId: nat)
    requires TablesOk(t) && ConversationsOk(rows, nextId) && t.nextId <= nextId
    ensures TablesOk(t.(conversations := rows, nextId := nextId))
  {
    TablesOkLater(t, nextId);
  }

  lemma WithMessages(t: Tables, rows: seq<MessageRow>, nextId: nat)
    requires TablesOk(t) && MessagesOk(rows, nextId) && t.nextId <= nextId
    ensures TablesOk(t.(messages := rows, nextId := nextId))
  {
    TablesOkLater(t, nextId);
  }

  lemma WithTags(t: Tables, rows: seq<TagRow>, nextId: nat)
    requires TablesOk(t) && TagsOk(rows, nextId) && t.nextId <= nextId
    ensures TablesOk(t.(tags := rows, nextId := nextId))
  {
    TablesOkLater(t, nextId);
  }

  /** A conversation inserted under the counter's id keeps the conversation constraints. */
  lemma ConversationsSnoc(rows: seq<ConversationRow>, nextId: nat, row: ConversationRow)
    requires ConversationsOk(rows, nextId) && row.id == nextId && row.contactId < nextId
    ensures ConversationsOk(rows + [row], nextId + 1)
  {
  }

  /** The store a route handler works on. */
  class Db {
    var contacts: seq<ContactRow>
    var conversations: seq<ConversationRow>
    var messages: seq<MessageRow>
    var recipients: seq<RecipientRow>
    var tags: seq<TagRow>
    var templates: seq<TemplateRow>
    var campaigns: seq<CampaignRow>
    var nextId: nat
    var down: set<Table>

    constructor (t: Tables)
      ensures State() == t
    {
      contacts, conversations, messages, recipients := t.contacts, t.conversations, t.messages, t.recipients;
      tags, templates, campaigns := t.tags, t.templates, t.campaigns;
      nextId, down := t.nextId, t.down;
    }

    function State(): Tables
      reads this
    {
      Tables(contacts, conversations, messages, recipients, tags, templates, campaigns, nextId, down)
    }

    predicate Valid()
      reads this
    {
      TablesOk(State())
    }
  }
}
