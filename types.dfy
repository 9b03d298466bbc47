/**
 * The values the dashboard passes around (the JSON the API routes return). Ids are the
 * store's opaque UUID strings; temporary client-side ids ("optimistic-...") share the space.
 */
module Types {
  import opened Wrappers

  /** A message payload, by the keys the source reads from it. */
  datatype Content = Content(
    textBody: Option<string>,          // content.text.body
    body: Option<string>,              // content.body
    imageCaption: Option<string>,      // content.image.caption
    documentFilename: Option<string>,  // content.document.filename
    templateName: Option<string>)      // content.template.name

  datatype Direction = Inbound | Outbound

  datatype Message = Message(
    id: string,
    conversationId: string,
    wamid: Option<string>,
    direction: Direction,
    msgType: string,
    content: Content,
    status: string,
    createdAt: string)

  datatype Tag = Tag(id: string, name: string, color: string)

  datatype ContactView = ContactView(id: string, phone: string, name: Option<string>)

  /** A conversation as `formatConversation` returns it. */
  datatype Conversation = Conversation(
    id: string,
    contactId: string,
    contact: Option<ContactView>,
    lastMessage: Option<string>,
    lastMessageAt: Option<string>,
    unreadCount: int,
    archived: bool,
    assignees: seq<string>,
    tags: seq<Tag>,
    campaignId: Option<string>)

  /** One button of a BUTTONS component; `exampleIsArray` says whether `example` holds an array. */
  datatype Button = Button(
    buttonType: Option<string>,
    urlType: Option<string>,
    exampleIsArray: bool,
    url: Option<string>,
    text: Option<string>)

  /** One component of a provider template (HEADER, BODY, BUTTONS, ...). */
  datatype Component = Component(
    componentType: string,
    format: Option<string>,
    text: Option<string>,
    buttons: Option<seq<Button>>)

  /** An approved template as the provider lists it. */
  datatype MetaTemplate = MetaTemplate(
    id: string,
    name: string,
    language: string,
    category: string,
    components: Option<seq<Component>>)
}
