/** Which conversations the sidebar list shows, and the tag-filter toggle. */
module ConversationList {
  import opened Wrappers
  import opened Text
  import opened Lists
  import opened Types
  import ChatWindow

  datatype ArchiveFilter = Active | Archived
  datatype OwnerFilter = All | Mine

  /** The list's filter settings: archive tab, "all"/"mine", the signed-in user, selected tags, search box. */
  datatype View = View(
    archive: ArchiveFilter,
    owner: OwnerFilter,
    userId: Option<string>,
    selectedTagIds: seq<string>,
    search: string)

  predicate ArchiveOk(c: Conversation, f: ArchiveFilter) {
    !(f == Active && c.archived) && !(f == Archived && !c.archived)
  }

  predicate OwnerOk(c: Conversation, v: View) {
    !(v.owner == Mine && v.userId.GetOr("") !in c.assignees)
  }

  /** Every selected tag id is on the conversation (`every` holds of an empty selection). */
  predicate TagsOk(c: Conversation, selected: seq<string>) {
    forall i :: 0 <= i < |selected| ==> selected[i] in ChatWindow.TagIds(c.tags)
  }

  /** The search test, with `q` already lowercased: name and last message are lowercased, the phone is not. */
  predicate QueryOk(c: Conversation, q: string) {
    q == []
    || (c.contact.Some? && c.contact.value.name.Some? && Contains(ToLower(c.contact.value.name.value), q))
    || (c.contact.Some? && Contains(c.contact.value.phone, q))
    || (c.lastMessage.Some? && Contains(ToLower(c.lastMessage.value), q))
  }

  predicate Visible(c: Conversation, v: View) {
    ArchiveOk(c, v.archive) && OwnerOk(c, v) && TagsOk(c, v.selectedTagIds) && QueryOk(c, ToLower(v.search))
  }

  function VisibleIn(v: View): Conversation -> bool {
    (c: Conversation) => Visible(c, v)
  }

  /** `conversations.filter(...)` */
  function Filtered(conversations: seq<Conversation>, v: View): seq<Conversation> {
    Filter(conversations, VisibleIn(v))
  }

  /** `toggleTag`: the new tag-filter selection. */
  function ToggleTagFilter(selected: seq<string>, tagId: string): seq<string> {
    Toggle(selected, tagId)
  }

  /** The shown list is the input with the hidden conversations left out, order kept. */
  lemma FilteredIsOrderedSelection(conversations: seq<Conversation>, v: View)
    ensures IsSubsequence(Filtered(conversations, v), conversations)
    ensures forall c :: c in Filtered(conversations, v) <==> c in conversations && Visible(c, v)
  {
    FilterIsSubsequence(conversations, VisibleIn(v));
    FilterMembers(conversations, VisibleIn(v));
  }

  /** The two archive tabs partition the conversations that pass the other filters. */
  lemma ArchiveTabsPartition(conversations: seq<Conversation>, v: View, c: Conversation)
    requires c in conversations
    requires OwnerOk(c, v) && TagsOk(c, v.selectedTagIds) && QueryOk(c, ToLower(v.search))
    ensures c in Filtered(conversations, v.(archive := Active)) <==> !c.archived
    ensures c in Filtered(conversations, v.(archive := Archived)) <==> c.archived
  {
    FilteredIsOrderedSelection(conversations, v.(archive := Active));
    FilteredIsOrderedSelection(conversations, v.(archive := Archived));
  }

  /** "Mine" shows only conversations assigned to the signed-in user. */
  lemma MineShowsOwn(conversations: seq<Conversation>, v: View)
    requires v.owner == Mine
    ensures forall c :: c in Filtered(conversations, v) ==> v.userId.GetOr("") in c.assignees
  {
    FilteredIsOrderedSelection(conversations, v);
  }

  /** Every shown conversation carries all selected tags; an empty selection hides nothing. */
  lemma TagFilterRequiresAll(conversations: seq<Conversation>, v: View)
    ensures forall c, i :: c in Filtered(conversations, v) && 0 <= i < |v.selectedTagIds| ==>
      v.selectedTagIds[i] in ChatWindow.TagIds(c.tags)
    ensures v.selectedTagIds == [] ==> forall c :: TagsOk(c, v.selectedTagIds)
  {
    FilteredIsOrderedSelection(conversations, v);
  }

  /** An empty search hides nothing; otherwise a conversation is shown only if some field contains the query. */
  lemma SearchSemantics(c: Conversation, v: View)
    ensures v.search == [] ==> QueryOk(c, ToLower(v.search))
    ensures Visible(c, v) && v.search != [] ==>
      var q := ToLower(v.search);
      (c.contact.Some? && c.contact.value.name.Some? && Contains(ToLower(c.contact.value.name.value), q))
      || (c.contact.Some? && Contains(c.contact.value.phone, q))
      || (c.lastMessage.Some? && Contains(ToLower(c.lastMessage.value), q))
  {
  }
}
