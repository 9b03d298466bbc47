/** `formatConversation`: the store's conversation row, with its joined tags, as the dashboard sees it. */
module ConversationsLib {
  import opened Wrappers
  import opened Types

  const DefaultTagColor := "#00a884"

  /** A tag row as the join returns it; its colour may be null or empty. */
  datatype RawTag = RawTag(id: string, name: string, color: Option<string>)

  /** One `conversation_tags` entry; the joined tag may be missing. */
  datatype TagEntry = TagEntry(tag: Option<RawTag>)

  datatype RawConversation = RawConversation(
    id: string,
    contactId: string,
    contact: Option<ContactView>,
    lastMessage: Option<string>,
    lastMessageAt: Option<string>,
    unreadCount: int,
    archived: Option<bool>,
    assignees: Option<seq<string>>,
    campaignId: Option<string>,
    conversationTags: Option<seq<TagEntry>>)

  /** `normalizeTag`: a falsy colour becomes the default colour. */
  function NormalizeTag(t: RawTag): Tag {
    Tag(t.id, t.name, if t.color.Some? && t.color.value != "" then t.color.value else DefaultTagColor)
  }

  /** `entries.map(e => e.tag).filter(Boolean).map(normalizeTag)` */
  function PresentTags(entries: seq<TagEntry>): seq<Tag> {
    if entries == [] then []
    else (if entries[0].tag.Some? then [NormalizeTag(entries[0].tag.value)] else []) + PresentTags(entries[1..])
  }

  function FormatConversation(raw: RawConversation): Conversation {
    Conversation(
      raw.id, raw.contactId, raw.contact, raw.lastMessage, raw.lastMessageAt, raw.unreadCount,
      raw.archived.GetOr(false),
      raw.assignees.GetOr([]),
      match raw.conversationTags case Some(entries) => PresentTags(entries) case None => [],
      raw.campaignId)
  }

  /** The tags are the normalised present entries: no more of them than entries, as many when none is null. */
  lemma {:induction false} PresentTagsInOrder(entries: seq<TagEntry>)
    ensures |PresentTags(entries)| <= |entries|
    ensures forall t :: t in PresentTags(entries) <==>
      exists i :: 0 <= i < |entries| && entries[i].tag.Some? && t == NormalizeTag(entries[i].tag.value)
    ensures (forall i :: 0 <= i < |entries| ==> entries[i].tag.Some?) ==> |PresentTags(entries)| == |entries|
  {
    if entries != [] {
      PresentTagsInOrder(entries[1..]);
      var rest := PresentTags(entries[1..]);
      forall t | t in rest
        ensures exists i :: 0 <= i < |entries| && entries[i].tag.Some? && t == NormalizeTag(entries[i].tag.value)
      {
        var j :| 0 <= j < |entries[1..]| && entries[1..][j].tag.Some? && t == NormalizeTag(entries[1..][j].tag.value);
        assert entries[j + 1] == entries[1..][j];
      }
      forall t | exists i :: 0 <= i < |entries| && entries[i].tag.Some? && t == NormalizeTag(entries[i].tag.value)
        ensures t in PresentTags(entries)
      {
        var i :| 0 <= i < |entries| && entries[i].tag.Some? && t == NormalizeTag(entries[i].tag.value);
        if i > 0 {
          assert entries[1..][i - 1] == entries[i];
        }
      }
    }
  }

  /** The tags of two runs of entries are the tags of the first run followed by those of the second. */
  lemma {:induction false} PresentTagsAppend(a: seq<TagEntry>, b: seq<TagEntry>)
    ensures PresentTags(a + b) == PresentTags(a) + PresentTags(b)
  {
    if a == [] {
      assert a + b == b;
    } else {
      var head := if a[0].tag.Some? then [NormalizeTag(a[0].tag.value)] else [];
      assert (a + b)[0] == a[0] && (a + b)[1..] == a[1..] + b;
      PresentTagsAppend(a[1..], b);
      assert PresentTags(a + b) == head + PresentTags(a[1..] + b);
      assert PresentTags(a) == head + PresentTags(a[1..]);
      assert head + (PresentTags(a[1..]) + PresentTags(b)) == (head + PresentTags(a[1..])) + PresentTags(b);
    }
  }

  /**
   * Order is kept entry by entry: an entry between two runs contributes its normalised tag,
   * or nothing when its tag is null, exactly between the tags of the two runs.
   */
  lemma PresentTagsSplit(a: seq<TagEntry>, e: TagEntry, b: seq<TagEntry>)
    ensures PresentTags(a + [e] + b)
      == PresentTags(a) + (if e.tag.Some? then [NormalizeTag(e.tag.value)] else []) + PresentTags(b)
  {
    PresentTagsAppend(a, [e]);
    PresentTagsAppend(a + [e], b);
    assert [e][1..] == [];
  }

  /** Every output tag has a non-empty colour; a non-empty stored colour is kept. */
  lemma TagColors(t: RawTag)
    ensures NormalizeTag(t).color != ""
    ensures t.color.Some? && t.color.value != "" ==> NormalizeTag(t).color == t.color.value
    ensures NormalizeTag(t).id == t.id && NormalizeTag(t).name == t.name
  {
  }

  /** Absent fields get their defaults, present ones (false included) are kept, the rest is copied. */
  lemma FormatDefaults(raw: RawConversation)
    ensures var c := FormatConversation(raw);
      && c.archived == (raw.archived == Some(true))
      && (raw.assignees.None? ==> c.assignees == []) && (raw.assignees.Some? ==> c.assignees == raw.assignees.value)
      && c.campaignId == raw.campaignId
      && (raw.conversationTags.None? ==> c.tags == [])
      && (raw.conversationTags.Some? ==> |c.tags| <= |raw.conversationTags.value|)
      && c.id == raw.id && c.contactId == raw.contactId && c.contact == raw.contact
      && c.lastMessage == raw.lastMessage && c.lastMessageAt == raw.lastMessageAt
      && c.unreadCount == raw.unreadCount
  {
    if raw.conversationTags.Some? {
      PresentTagsInOrder(raw.conversationTags.value);
    }
  }
}
