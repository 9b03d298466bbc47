/**
 * The campaigns API route. POST creates a draft campaign in three writes: the template is upserted
 * on its name, an auto tag upserted on the campaign name's key, then the campaign inserted; the first
 * failing write ends the request and nothing earlier is undone. GET lists every campaign with the
 * number of its recipients who have replied.
 */
module CampaignsRoute {
  import opened Wrappers
  import opened Text
  import opened Lists
  import opened Types
  import opened Store
  import TagsRoute
  import Webhook

  /** The colours an auto tag is given, one picked at random. */
  const TagColors: seq<string> := ["#ef4444", "#f97316", "#eab308", "#22c55e",
                                   "#3b82f6", "#8b5cf6", "#ec4899", "#06b6d4"]

  /** This route's `normalizeTagKey`: trimmed, lowercased, then whitespace runs collapsed. */
  function CampaignTagKey(name: string): string {
    Collapse(ToLower(Trim(name)))
  }

  /** It is the tags route's key in another order of steps, so the two routes agree on every name. */
  lemma KeysAgree(name: string)
    ensures CampaignTagKey(name) == TagsRoute.NormalizeTagKey(name)
  {
    ToLowerTrim(name);
    ToLowerCollapse(Trim(name));
    ToLowerTrim(name);
    assert TagsRoute.NormalizeTagKey(name) == ToLower(Collapse(Trim(name)));
    assert ToLower(Collapse(Trim(name))) == Collapse(ToLower(Trim(name)));
  }

  // ---------------------------------------------------------------------------------------------
  // POST /api/campaigns

  /** The `template` object of the request body. */
  datatype TemplateInput = TemplateInput(
    metaId: Option<string>,
    name: Option<string>,
    language: Option<string>,
    category: Option<string>,
    components: Option<seq<Component>>)

  /** The fields of a request body that parsed as JSON: `name` and the `template` object. */
  datatype CampaignBody = CampaignBody(name: Field, template: Option<TemplateInput>)

  /**
   * The answers of the POST. `BodyNotJson` is the 500 the framework gives when `request.json()`
   * throws on a body that is not JSON.
   */
  datatype CampaignReply =
    | Unauthorized
    | BodyNotJson
    | NameRequired
    | TemplateNameRequired
    | TemplateSyncFailed
    | TagFailed
    | CampaignFailed
    | Created(campaign: CampaignRow, repliedCount: nat)

  /** The request's `name`: trimmed when it is a string, else "". */
  function RequestedName(name: Field): (r: string)
    ensures name.Str? ==> r == Trim(name.s)
    ensures !name.Str? ==> r == []
  {
    if name.Str? then Trim(name.s) else []
  }

  /** `!tmpl?.name`: no template, no name, or an empty name. */
  predicate MissingTemplateName(tmpl: Option<TemplateInput>) {
    tmpl.None? || tmpl.value.name.None? || tmpl.value.name.value == []
  }

  /** The template columns written: the defaults are language "es_AR", no category and no components. */
  function TemplateColumns(tmpl: TemplateInput): (row: TemplateRow)
    requires tmpl.name.Some?
    ensures row.name == tmpl.name.value && row.status == "APPROVED" && row.metaTemplateId == tmpl.metaId
    ensures row.language == (if tmpl.language.Some? then tmpl.language.value else "es_AR")
    ensures row.category == tmpl.category
    ensures row.components == (if tmpl.components.Some? then tmpl.components.value else [])
  {
    TemplateRow(0, tmpl.name.value, tmpl.language.GetOr("es_AR"), tmpl.category, tmpl.components.GetOr([]),
                "APPROVED", tmpl.metaId)
  }

  /** A new campaign: a draft with no sends, deliveries or reads. */
  function NewCampaign(id: nat, name: string, templateId: nat, tagId: nat): (c: CampaignRow)
    ensures c.status == "draft" && c.sentCount == 0 && c.deliveredCount == 0 && c.readCount == 0
    ensures c.id == id && c.name == name && c.templateId == templateId && c.tagId == tagId
  {
    CampaignRow(id, name, templateId, tagId, "draft", 0, 0, 0)
  }

  datatype CampaignPost = CampaignPost(tables: Tables, reply: CampaignReply)

  /**
   * The whole POST on a snapshot; `body` is None when it is not JSON, and `pick` is the random
   * colour index.
   */
  function PostCampaign(t: Tables, user: Option<string>, body: Option<CampaignBody>, pick: nat): CampaignPost
    requires pick < |TagColors|
  {
    if user.None? then CampaignPost(t, Unauthorized)
    else if body.None? then CampaignPost(t, BodyNotJson)
    else
      var n := RequestedName(body.value.name);
      var tmpl := body.value.template;
      if n == [] then CampaignPost(t, NameRequired)
      else if MissingTemplateName(tmpl) then CampaignPost(t, TemplateNameRequired)
      else Writes(t, n, CampaignTagKey(n), tmpl.value, user.value, TagColors[pick])
  }

  /** The three writes of a valid request; `key` is the tag key of `name`. */
  function Writes(t: Tables, name: string, key: string, tmpl: TemplateInput, user: string, color: string): CampaignPost
    requires tmpl.name.Some?
  {
    if TemplatesTable in t.down then CampaignPost(t, TemplateSyncFailed)
    else
      var ut := UpsertTemplate(t.templates, t.nextId, TemplateColumns(tmpl));
      var t1 := t.(templates := ut.rows, nextId := ut.nextId);
      if TagsTable in t.down then CampaignPost(t1, TagFailed)
      else
        var ug := UpsertTag(t1.tags, t1.nextId, name, key, color, user);
        var t2 := t1.(tags := ug.rows, nextId := ug.nextId);
        if CampaignsTable in t.down then CampaignPost(t2, CampaignFailed)
        else
          var c := NewCampaign(t2.nextId, name, ut.row.id, ug.row.id);
          CampaignPost(t2.(campaigns := t2.campaigns + [c], nextId := t2.nextId + 1), Created(c, 0))
  }

  /** The handler: validation, then the three writes. */
  method Post(db: Db, user: Option<string>, body: Option<CampaignBody>, pick: nat)
    returns (reply: CampaignReply)
    requires pick < |TagColors|
    requires db.Valid()
    modifies db`templates, db`tags, db`campaigns, db`nextId
    ensures var p := PostCampaign(old(db.State()), user, body, pick);
      reply == p.reply && db.State() == p.tables
    ensures db.Valid()
  {
    PostKeepsValid(db.State(), user, body, pick);
    if user.None? {
      return Unauthorized;
    }
    if body.None? {
      return BodyNotJson;
    }
    var n := RequestedName(body.value.name);
    var tmpl := body.value.template;
    if n == [] {
      return NameRequired;
    }
    if MissingTemplateName(tmpl) {
      return TemplateNameRequired;
    }
    reply := Write(db, n, CampaignTagKey(n), tmpl.value, user.value, TagColors[pick]);
  }

  /** The writes, each failure returning at once. */
  method Write(db: Db, name: string, key: string, tmpl: TemplateInput, user: string, color: string) returns (reply: CampaignReply)
    requires tmpl.name.Some?
    modifies db`templates, db`tags, db`campaigns, db`nextId
    ensures var p := Writes(old(db.State()), name, key, tmpl, user, color);
      reply == p.reply && db.State() == p.tables
  {
    if TemplatesTable in db.down {
      return TemplateSyncFailed;
    }
    var templateId := SyncTemplate(db, tmpl);
    if TagsTable in db.down {
      return TagFailed;
    }
    var tagId := SyncTag(db, name, key, color, user);
    if CampaignsTable in db.down {
      return CampaignFailed;
    }
    var c := NewCampaign(db.nextId, name, templateId, tagId);
    db.campaigns, db.nextId := db.campaigns + [c], db.nextId + 1;
    reply := Created(c, 0);
  }

  method SyncTemplate(db: Db, tmpl: TemplateInput) returns (id: nat)
    requires tmpl.name.Some?
    modifies db`templates, db`nextId
    ensures var u := UpsertTemplate(old(db.templates), old(db.nextId), TemplateColumns(tmpl));
      db.templates == u.rows && db.nextId == u.nextId && id == u.row.id
  {
    var u := UpsertTemplate(db.templates, db.nextId, TemplateColumns(tmpl));
    db.templates, db.nextId := u.rows, u.nextId;
    id := u.row.id;
  }

  method SyncTag(db: Db, name: string, key: string, color: string, user: string) returns (id: nat)
    modifies db`tags, db`nextId
    ensures var u := UpsertTag(old(db.tags), old(db.nextId), name, key, color, user);
      db.tags == u.rows && db.nextId == u.nextId && id == u.row.id
  {
    var u := UpsertTag(db.tags, db.nextId, name, key, color, user);
    db.tags, db.nextId := u.rows, u.nextId;
    id := u.row.id;
  }

  /**
   * A missing user, a body that is not JSON, a blank name or a missing template name is refused,
   * and nothing is written.
   */
  lemma ValidationWritesNothing(t: Tables, user: Option<string>, body: Option<CampaignBody>, pick: nat)
    requires pick < |TagColors|
    ensures var p := PostCampaign(t, user, body, pick);
      (user.None? ==> p.reply == Unauthorized)
      && (user.Some? && body.None? ==> p.reply == BodyNotJson)
      && (user.Some? && body.Some? && RequestedName(body.value.name) == [] ==> p.reply == NameRequired)
      && (user.Some? && body.Some? && RequestedName(body.value.name) != [] && MissingTemplateName(body.value.template) ==>
            p.reply == TemplateNameRequired)
      && (p.reply in {Unauthorized, BodyNotJson, NameRequired, TemplateNameRequired} ==> p.tables == t)
  {
    if user.Some? && body.Some? {
      var n := RequestedName(body.value.name);
      var tmpl := body.value.template;
      if n != [] && !MissingTemplateName(tmpl) {
        WritesReply(t, n, CampaignTagKey(n), tmpl.value, user.value, TagColors[pick]);
        assert PostCampaign(t, user, body, pick) == Writes(t, n, CampaignTagKey(n), tmpl.value, user.value, TagColors[pick]);
      }
    }
  }

  /** Whatever the request, the store's constraints hold after the POST. */
  lemma PostKeepsValid(t: Tables, user: Option<string>, body: Option<CampaignBody>, pick: nat)
    requires pick < |TagColors| && TablesOk(t)
    ensures TablesOk(PostCampaign(t, user, body, pick).tables)
  {
    if user.Some? && body.Some? {
      var n := RequestedName(body.value.name);
      var tmpl := body.value.template;
      if n != [] && !MissingTemplateName(tmpl) {
        WritesKeepValid(t, n, CampaignTagKey(n), tmpl.value, user.value, TagColors[pick]);
      }
    }
  }

  /** The writes answer only with a store failure or the created campaign. */
  lemma WritesReply(t: Tables, name: string, key: string, tmpl: TemplateInput, user: string, color: string)
    requires tmpl.name.Some?
    ensures Writes(t, name, key, tmpl, user, color).reply !in {Unauthorized, BodyNotJson, NameRequired, TemplateNameRequired}
  {
  }

  /** The name is blank exactly when it is not a string, or is empty or all whitespace. */
  lemma BlankName(name: Field)
    ensures RequestedName(name) == [] <==> !name.Str? || forall i :: 0 <= i < |name.s| ==> IsSpace(name.s[i])
  {
    if name.Str? {
      TrimOfSpaces(name.s);
    }
  }

  /** A valid request goes on to the writes with the trimmed name, its key and the picked colour. */
  lemma ValidRequestWrites(t: Tables, user: string, name: Field, tmpl: Option<TemplateInput>, pick: nat)
    requires pick < |TagColors| && RequestedName(name) != [] && !MissingTemplateName(tmpl)
    ensures name.Str? && PostCampaign(t, Some(user), Some(CampaignBody(name, tmpl)), pick)
      == Writes(t, Trim(name.s), CampaignTagKey(Trim(name.s)), tmpl.value, user, TagColors[pick])
  {
  }

  lemma TrimOfSpaces(s: string)
    ensures Trim(s) == [] <==> forall i :: 0 <= i < |s| ==> IsSpace(s[i])
  {
    TrimStartOfSpaces(s);
  }

  /**
   * Each store failure stops the writes at its step: a failed template upsert writes nothing, after a
   * failed tag upsert no tag or campaign is written, after a failed insert no campaign is; what was
   * written before stays (there is no rollback).
   */
  lemma FailureStopsLaterSteps(t: Tables, name: string, key: string, tmpl: TemplateInput, user: string, color: string)
    requires tmpl.name.Some?
    ensures var p := Writes(t, name, key, tmpl, user, color); var ut := UpsertTemplate(t.templates, t.nextId, TemplateColumns(tmpl));
      (TemplatesTable in t.down ==> p.reply == TemplateSyncFailed && p.tables == t)
      && (TemplatesTable !in t.down && TagsTable in t.down ==>
            p.reply == TagFailed && p.tables == t.(templates := ut.rows, nextId := ut.nextId))
      && (TemplatesTable !in t.down && TagsTable !in t.down && CampaignsTable in t.down ==>
            p.reply == CampaignFailed && p.tables.campaigns == t.campaigns && p.tables.templates == ut.rows)
      && (TemplatesTable !in t.down && TagsTable !in t.down && CampaignsTable !in t.down ==> p.reply.Created?)
  {
  }

  /**
   * A created campaign is a draft with zero counts and the given name, appended as the last campaign;
   * it points at the only template with the requested name (written with its defaults) and the only
   * tag with the name's key (written with the name, the colour and the user); the reply's replied
   * count is 0 and agrees with the count GET reports; the constraints hold afterwards.
   */
  lemma CreatedDraft(t: Tables, name: string, key: string, tmpl: TemplateInput, user: string, color: string)
    requires tmpl.name.Some? && TablesOk(t)
    ensures var p := Writes(t, name, key, tmpl, user, color);
      p.reply.Created? ==>
        var c := p.reply.campaign; var r := p.tables;
        && c.status == "draft" && c.sentCount == 0 && c.deliveredCount == 0 && c.readCount == 0
        && p.reply.repliedCount == 0 && RepliedCount(r.recipients, c.id) == 0
        && c.name == name && r.campaigns == t.campaigns + [c]
        && (exists k :: 0 <= k < |r.templates| && r.templates[k] == TemplateColumns(tmpl).(id := c.templateId))
        && (forall k :: 0 <= k < |r.templates| && r.templates[k].name == tmpl.name.value ==> r.templates[k].id == c.templateId)
        && (exists k :: 0 <= k < |r.tags| && r.tags[k] == TagRow(c.tagId, name, key, color, user))
        && (forall k :: 0 <= k < |r.tags| && r.tags[k].normalizedName == key ==> r.tags[k].id == c.tagId)
  {
    var p := Writes(t, name, key, tmpl, user, color);
    if p.reply.Created? {
      var ut := UpsertTemplate(t.templates, t.nextId, TemplateColumns(tmpl));
      UpsertTemplateEffect(t.templates, t.nextId, TemplateColumns(tmpl));
      var t1 := t.(templates := ut.rows, nextId := ut.nextId);
      UpsertTagEffect(t1.tags, t1.nextId, name, key, color, user);
      NoRepliesYet(t.recipients, t.nextId, p.reply.campaign.id);
    }
  }

  /** The writes keep the store's constraints, whichever step fails. */
  lemma WritesKeepValid(t: Tables, name: string, key: string, tmpl: TemplateInput, user: string, color: string)
    requires tmpl.name.Some? && TablesOk(t)
    ensures TablesOk(Writes(t, name, key, tmpl, user, color).tables)
  {
    if TemplatesTable !in t.down {
      var ut := UpsertTemplate(t.templates, t.nextId, TemplateColumns(tmpl));
      var t1 := t.(templates := ut.rows, nextId := ut.nextId);
      if TagsTable !in t.down {
        TagWrittenKeepsValid(t, name, key, tmpl, user, color);
        if CampaignsTable !in t.down {
          CreatedKeepsValid(t, name, key, tmpl, user, color);
        }
      } else {
        TemplateStepOk(t, TemplateColumns(tmpl));
        assert Writes(t, name, key, tmpl, user, color).tables == t1;
      }
    }
  }

  /** After the template and tag upserts the constraints hold and both written ids are issued. */
  lemma TagWrittenKeepsValid(t: Tables, name: string, key: string, tmpl: TemplateInput, user: string, color: string)
    requires tmpl.name.Some? && TablesOk(t) && TemplatesTable !in t.down && TagsTable !in t.down
    ensures var ut := UpsertTemplate(t.templates, t.nextId, TemplateColumns(tmpl));
      var t1 := t.(templates := ut.rows, nextId := ut.nextId);
      var ug := UpsertTag(t1.tags, t1.nextId, name, key, color, user);
      var t2 := t1.(tags := ug.rows, nextId := ug.nextId);
      TablesOk(t2) && ut.row.id < t2.nextId && ug.row.id < t2.nextId
      && (CampaignsTable in t.down ==> Writes(t, name, key, tmpl, user, color).tables == t2)
  {
    var ut := UpsertTemplate(t.templates, t.nextId, TemplateColumns(tmpl));
    TemplateStepOk(t, TemplateColumns(tmpl));
    var t1 := t.(templates := ut.rows, nextId := ut.nextId);
    TagStepOk(t1, name, key, color, user);
  }

  /** The campaign insert after them keeps the constraints too. */
  lemma CreatedKeepsValid(t: Tables, name: string, key: string, tmpl: TemplateInput, user: string, color: string)
    requires tmpl.name.Some? && TablesOk(t) && TemplatesTable !in t.down && TagsTable !in t.down && CampaignsTable !in t.down
    ensures TablesOk(Writes(t, name, key, tmpl, user, color).tables)
  {
    var ut := UpsertTemplate(t.templates, t.nextId, TemplateColumns(tmpl));
    var t1 := t.(templates := ut.rows, nextId := ut.nextId);
    var ug := UpsertTag(t1.tags, t1.nextId, name, key, color, user);
    var t2 := t1.(tags := ug.rows, nextId := ug.nextId);
    TagWrittenKeepsValid(t, name, key, tmpl, user, color);
    var c := NewCampaign(t2.nextId, name, ut.row.id, ug.row.id);
    InsertCampaign(t2, c);
    assert Writes(t, name, key, tmpl, user, color).tables == t2.(campaigns := t2.campaigns + [c], nextId := t2.nextId + 1);
  }

  lemma TemplateStepOk(t: Tables, given: TemplateRow)
    requires TablesOk(t)
    ensures var u := UpsertTemplate(t.templates, t.nextId, given);
      TablesOk(t.(templates := u.rows, nextId := u.nextId)) && u.row.id < u.nextId
  {
    var u := UpsertTemplate(t.templates, t.nextId, given);
    UpsertTemplateEffect(t.templates, t.nextId, given);
    TablesOkLater(t, u.nextId);
  }

  lemma TagStepOk(t: Tables, name: string, key: string, color: string, user: string)
    requires TablesOk(t)
    ensures var u := UpsertTag(t.tags, t.nextId, name, key, color, user);
      TablesOk(t.(tags := u.rows, nextId := u.nextId)) && u.row.id < u.nextId
  {
    var u := UpsertTag(t.tags, t.nextId, name, key, color, user);
    UpsertTagEffect(t.tags, t.nextId, name, key, color, user);
    TablesOkLater(t, u.nextId);
  }

  lemma InsertCampaign(t: Tables, c: CampaignRow)
    requires TablesOk(t) && c.id == t.nextId && c.templateId < t.nextId && c.tagId < t.nextId
    ensures TablesOk(t.(campaigns := t.campaigns + [c], nextId := t.nextId + 1))
  {
  }

  /** No recipient names an id the counter has not issued, so a new campaign has no replies. */
  lemma {:induction false} NoRepliesYet(rows: seq<RecipientRow>, nextId: nat, id: nat)
    requires RecipientsOk(rows, nextId) && nextId <= id
    ensures RepliedCount(rows, id) == 0
  {
    FilterNone(rows, RepliedTo(id));
  }

  /** A campaign named like an existing tag (up to case and spacing) looks it up under the tags route's key. */
  lemma SameNameSameKey(raw: string)
    ensures CampaignTagKey(Trim(raw)) == TagsRoute.NormalizeTagKey(raw)
  {
    KeysAgree(Trim(raw));
    TrimIsTrimmed(raw);
    TrimOfTrimmed(Trim(raw));
  }

  /** The campaign tag reuses a tag already stored under the key: it keeps its id and no tag is added. */
  lemma ReusesStoredTag(t: Tables, name: string, key: string, tmpl: TemplateInput, user: string, color: string, i: nat)
    requires tmpl.name.Some? && TablesOk(t)
    requires i < |t.tags| && t.tags[i].normalizedName == key
    ensures var p := Writes(t, name, key, tmpl, user, color);
      p.reply.Created? ==> p.reply.campaign.tagId == t.tags[i].id && |p.tables.tags| == |t.tags|
  {
    var p := Writes(t, name, key, tmpl, user, color);
    if p.reply.Created? {
      var ut := UpsertTemplate(t.templates, t.nextId, TemplateColumns(tmpl));
      var t1 := t.(templates := ut.rows, nextId := ut.nextId);
      UpsertTagEffect(t1.tags, t1.nextId, name, key, color, user);
    }
  }

  // ---------------------------------------------------------------------------------------------
  // GET /api/campaigns

  /** The `replied_at is not null` filter for one campaign. */
  function RepliedTo(campaignId: nat): RecipientRow -> bool {
    (r: RecipientRow) => r.campaignId == campaignId && r.repliedAt.Some?
  }

  /** `count` of the campaign's recipients that have replied. */
  function RepliedCount(rows: seq<RecipientRow>, campaignId: nat): nat {
    |Filter(rows, RepliedTo(campaignId))|
  }

  datatype CampaignSummary = CampaignSummary(campaign: CampaignRow, repliedCount: nat)

  datatype ListReply = ListUnauthorized | ListFailed | Listed(campaigns: seq<CampaignSummary>)

  /** Every campaign with its replied count; a failed count query counts 0. */
  function ListCampaigns(t: Tables, user: Option<string>): (r: ListReply)
    ensures user.None? <==> r == ListUnauthorized
    ensures user.Some? && CampaignsTable in t.down <==> r == ListFailed
    ensures r.Listed? ==> |r.campaigns| == |t.campaigns|
    ensures r.Listed? ==> forall i :: 0 <= i < |t.campaigns| ==> r.campaigns[i].campaign == t.campaigns[i]
  {
    if user.None? then ListUnauthorized
    else if CampaignsTable in t.down then ListFailed
    else Listed(seq(|t.campaigns|, i requires 0 <= i < |t.campaigns| =>
      CampaignSummary(t.campaigns[i], if RecipientsTable in t.down then 0 else RepliedCount(t.recipients, t.campaigns[i].id))))
  }

  /**
   * The listing keeps the campaigns in store order; entry i carries campaign i with the number of
   * recipient rows of that campaign whose replied_at is set, which is at most the campaign's
   * recipients, and 0 for every campaign when the count query fails.
   */
  lemma ListedCounts(t: Tables, user: string)
    requires CampaignsTable !in t.down
    ensures var r := ListCampaigns(t, Some(user));
      r.Listed?
      && (forall i :: 0 <= i < |t.campaigns| ==> r.campaigns[i].campaign == t.campaigns[i])
      && (forall i :: 0 <= i < |t.campaigns| ==>
            r.campaigns[i].repliedCount <= |Filter(t.recipients, CampaignIs(t.campaigns[i].id))|)
      && (RecipientsTable !in t.down ==> forall i :: 0 <= i < |t.campaigns| ==>
            r.campaigns[i].repliedCount == |RepliedIndices(t.recipients, t.campaigns[i].id)|)
      && (RecipientsTable in t.down ==> forall i :: 0 <= i < |t.campaigns| ==> r.campaigns[i].repliedCount == 0)
  {
    var r := ListCampaigns(t, Some(user));
    forall i | 0 <= i < |t.campaigns|
      ensures r.campaigns[i].repliedCount <= |Filter(t.recipients, CampaignIs(t.campaigns[i].id))|
      ensures RecipientsTable !in t.down ==>
        r.campaigns[i].repliedCount == |RepliedIndices(t.recipients, t.campaigns[i].id)|
    {
      RepliedAtMostRecipients(t.recipients, t.campaigns[i].id);
      RepliedCountIsIndices(t.recipients, t.campaigns[i].id);
    }
  }

  /** The positions of the recipient rows of a campaign that have replied. */
  ghost function RepliedIndices(rows: seq<RecipientRow>, campaignId: nat): set<int> {
    set j | 0 <= j < |rows| && rows[j].campaignId == campaignId && rows[j].repliedAt.Some?
  }

  /** The replied count is the number of replied rows of the campaign. */
  lemma {:induction false} RepliedCountIsIndices(rows: seq<RecipientRow>, id: nat)
    ensures RepliedCount(rows, id) == |RepliedIndices(rows, id)|
    decreases |rows|
  {
    if rows == [] {
      assert RepliedIndices(rows, id) == {};
    } else {
      var n := |rows| - 1;
      var init := rows[..n];
      assert rows == init + [rows[n]];
      RepliedCountIsIndices(init, id);
      CountAppended(init, rows[n], id);
      RepliedIndicesLast(rows, id);
    }
  }

  /** The last row adds its own position to the replied positions of the rows before it, when it has replied. */
  lemma RepliedIndicesLast(rows: seq<RecipientRow>, id: nat)
    requires rows != []
    ensures var n := |rows| - 1;
      |RepliedIndices(rows, id)|
        == |RepliedIndices(rows[..n], id)| + (if rows[n].campaignId == id && rows[n].repliedAt.Some? then 1 else 0)
  {
    var n := |rows| - 1;
    var before := RepliedIndices(rows[..n], id);
    assert forall j :: 0 <= j < n ==> rows[j] == rows[..n][j];
    if rows[n].campaignId == id && rows[n].repliedAt.Some? {
      assert RepliedIndices(rows, id) == before + {n};
      assert n !in before;
    } else {
      assert RepliedIndices(rows, id) == before;
    }
  }

  function CampaignIs(campaignId: nat): RecipientRow -> bool {
    (r: RecipientRow) => r.campaignId == campaignId
  }

  lemma {:induction false} RepliedAtMostRecipients(rows: seq<RecipientRow>, id: nat)
    ensures RepliedCount(rows, id) <= |Filter(rows, CampaignIs(id))|
  {
    if rows != [] {
      RepliedAtMostRecipients(rows[1..], id);
    }
  }

  /** A recipient added to the table counts when it belongs to the campaign and has replied. */
  lemma CountAppended(rows: seq<RecipientRow>, r: RecipientRow, id: nat)
    ensures RepliedCount(rows + [r], id) == RepliedCount(rows, id) + (if r.campaignId == id && r.repliedAt.Some? then 1 else 0)
  {
    FilterAppend(rows, r, RepliedTo(id));
  }

  /** The recipients of a campaign and contact who have not replied yet. */
  function Awaiting(campaignId: nat, contactId: nat): RecipientRow -> bool {
    (r: RecipientRow) => r.campaignId == campaignId && r.contactId == contactId && r.repliedAt.None?
  }

  /**
   * The webhook's reply marking raises the campaign's replied count by exactly the contact's
   * recipients that had not replied, and leaves every other campaign's count alone.
   */
  lemma {:induction false} RepliesCounted(rows: seq<RecipientRow>, campaignId: nat, contactId: nat, now: string, other: nat)
    ensures RepliedCount(Webhook.MarkReplied(rows, campaignId, contactId, now), campaignId)
      == RepliedCount(rows, campaignId) + |Filter(rows, Awaiting(campaignId, contactId))|
    ensures other != campaignId ==>
      RepliedCount(Webhook.MarkReplied(rows, campaignId, contactId, now), other) == RepliedCount(rows, other)
  {
    if rows != [] {
      var m := Webhook.MarkReplied(rows, campaignId, contactId, now);
      assert m[1..] == Webhook.MarkReplied(rows[1..], campaignId, contactId, now);
      RepliesCounted(rows[1..], campaignId, contactId, now, other);
    }
  }
}
