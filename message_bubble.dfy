/** The text and the delivery ticks a chat bubble shows for one message. */
module MessageBubble {
  import opened Wrappers
  import opened Types

  /** The text shown in the bubble. */
  function MessageText(m: Message): string {
    var c := m.content;
    if m.msgType == "text" then
      c.textBody.GetOr(c.body.GetOr(""))
    else if m.msgType == "image" then "[Image]"
    else if m.msgType == "audio" then "[Audio]"
    else if m.msgType == "video" then "[Video]"
    else if m.msgType == "document" then "[Document]"
    else if m.msgType == "template" then
      (if c.templateName.Some? && c.templateName.value != "" then "[Template: " + c.templateName.value + "]"
       else "[Template]")
    else "[" + m.msgType + "]"
  }

  /** The tick icons: two blue, two grey, one grey, or none. */
  datatype Ticks = NoTicks | OneTick | TwoTicks(blue: bool) {
    function Count(): nat {
      match this
      case NoTicks => 0
      case OneTick => 1
      case TwoTicks(_) => 2
    }
  }

  function StatusTicks(status: string): Ticks {
    if status == "read" then TwoTicks(true)
    else if status == "delivered" then TwoTicks(false)
    else if status == "sent" then OneTick
    else NoTicks
  }

  /** Ticks are rendered only on outbound bubbles. */
  function BubbleTicks(m: Message): Ticks {
    if m.direction == Outbound then StatusTicks(m.status) else NoTicks
  }

  /** A text message shows its text body, falling back to the flat body, then to the empty string. */
  lemma TextFallbacks(m: Message)
    requires m.msgType == "text"
    ensures m.content.textBody.Some? ==> MessageText(m) == m.content.textBody.value
    ensures m.content.textBody.None? && m.content.body.Some? ==> MessageText(m) == m.content.body.value
    ensures m.content.textBody.None? && m.content.body.None? ==> MessageText(m) == ""
  {
  }

  /** Every type other than text gets a bracketed label; each media type gets its own fixed label. */
  lemma NonTextIsBracketed(m: Message)
    requires m.msgType != "text"
    ensures var r := MessageText(m); |r| >= 2 && r[0] == '[' && r[|r| - 1] == ']'
    ensures m.msgType == "image" ==> MessageText(m) == "[Image]"
    ensures m.msgType == "audio" ==> MessageText(m) == "[Audio]"
    ensures m.msgType == "video" ==> MessageText(m) == "[Video]"
    ensures m.msgType == "document" ==> MessageText(m) == "[Document]"
    ensures m.msgType !in {"image", "audio", "video", "document", "template"} ==>
      MessageText(m) == "[" + m.msgType + "]"
  {
  }

  /** A template message names its template when the name is non-empty. */
  lemma TemplateLabel(m: Message)
    requires m.msgType == "template"
    ensures (m.content.templateName.Some? && m.content.templateName.value != "") ==>
      MessageText(m) == "[Template: " + m.content.templateName.value + "]"
    ensures (m.content.templateName.None? || m.content.templateName.value == "") ==>
      MessageText(m) == "[Template]"
  {
  }

  /** Two ticks exactly for read and delivered, one for sent, none otherwise, and only on outbound messages. */
  lemma TickCounts(m: Message)
    ensures BubbleTicks(m).Count() == 2 <==> m.direction == Outbound && m.status in {"read", "delivered"}
    ensures BubbleTicks(m).Count() == 1 <==> m.direction == Outbound && m.status == "sent"
    ensures BubbleTicks(m) == TwoTicks(true) <==> m.direction == Outbound && m.status == "read"
    ensures m.direction == Inbound ==> BubbleTicks(m) == NoTicks
  {
  }
}
