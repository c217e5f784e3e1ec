/**
 * types.ts: messages, conversations and CRM contacts, plus the untyped row of
 * the `messages` table that history and the change feed deliver.
 * Instants (`Date` values and the timestamps stored as text) are integers.
 */
module Types {
  import opened Wrappers
  import opened Text
  import opened Utils

  datatype Sender = Agent | Customer

  datatype Message = Message(
    id: string,
    text: string,
    senderId: Sender,
    timestamp: int,
    /** The instant written in the raw `created_at` text, when that text is present. */
    createdAtRaw: Option<int>,
    status: string,
    kind: string)

  datatype ConversationStatus = Active | Waiting | Finished

  datatype Platform = WhatsApp | Instagram | Email

  datatype Conversation = Conversation(
    id: string,
    contactName: string,
    contactPhone: string,
    lastMessage: string,
    lastMessageTime: int,
    unreadCount: nat,
    status: ConversationStatus,
    platform: Platform,
    tags: seq<string>,
    messages: seq<Message>)

  datatype Contact = Contact(
    id: int,
    createdAt: int,
    phone: string,
    name: string,
    segmento: Option<string>,
    status: Option<string>,
    temperatura: Option<string>,
    empresa: Option<string>,
    cargo: Option<string>,
    pipedriveId: Option<int>,
    resumoIa: Option<string>,
    ultimaInteracao: Option<string>)

  /**
   * A row of the `messages` table. Absent columns are None; an absent or falsy
   * id is the empty string.
   */
  datatype MessageRow = MessageRow(
    id: string,
    content: Option<string>,
    phone: Option<string>,
    direction: Option<string>,
    createdAt: int,
    status: Option<string>,
    kind: Option<string>,
    contactName: Option<string>,
    name: Option<string>,
    pushName: Option<string>,
    senderName: Option<string>)

  /** The identity used to match events to conversations: the digits of the phone. */
  function Key(c: Conversation): string {
    Digits(c.contactPhone)
  }

  /** The length of a thread, the term of every message count. */
  function MessageCount(c: Conversation): nat {
    |c.messages|
  }

  /** The placeholder test of the name guards: the name still equals the formatted phone. */
  predicate HasGenericName(c: Conversation) {
    c.contactName == FormatPhone(c.contactPhone)
  }

  /** The name-bearing columns of a row, in the order the code tries them. */
  function RowName(row: MessageRow): (r: Option<string>)
    ensures r.Some? ==> r.value != ""
    ensures Truthy(row.contactName) ==> r == row.contactName
    ensures !Truthy(row.contactName) && Truthy(row.name) ==> r == row.name
    ensures !Truthy(row.contactName) && !Truthy(row.name) && Truthy(row.pushName) ==> r == row.pushName
    ensures !Truthy(row.contactName) && !Truthy(row.name) && !Truthy(row.pushName) ==>
              r == (if Truthy(row.senderName) then row.senderName else None)
  {
    var os := [row.contactName, row.name, row.pushName, row.senderName];
    var r := FirstTruthy(os);
    assert os[0] == row.contactName && os[1] == row.name;
    assert os[2] == row.pushName && os[3] == row.senderName;
    assert r.Some? ==> Truthy(r);
    r
  }

  /** Only an outbound row is the agent's; any other direction is the customer's. */
  function SenderOf(direction: Option<string>): (s: Sender)
    ensures s == Agent <==> direction == Some("outbound")
  {
    if direction == Some("outbound") then Agent else Customer
  }
}
