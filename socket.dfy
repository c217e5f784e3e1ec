/**
 * services/socket.ts: the realtime service. The database client of the
 * library is abstracted: a client is the pair of credentials it was made with,
 * the library's registry of live channels is the set `openChannels` of channel
 * handles, and every answer of the database is a parameter.
 */
module Socket {
  import opened Wrappers
  import opened Text
  import opened Types

  /** A database client, made from a url and a key. */
  datatype Client = Client(url: string, key: string)

  /** What a `select` on `messages` answers: a throw, an error object, or the data (possibly null). */
  datatype HistoryResponse = HistoryThrew | HistoryError | HistoryData(data: Option<seq<MessageRow>>)

  /** What the `ilike(...).single()` lookup on `contacts` answers. */
  datatype ContactResponse = ContactThrew | ContactError(code: string) | ContactFound(contact: Contact)

  /** The outcome of `sendMessage`: it throws when unconfigured or when the insert fails. */
  datatype SendResult = NotConfigured | WriteFailed(row: MessageRow) | Written(row: MessageRow)

  /** The history query reads at most this many rows. */
  const HistoryLimit: nat := 500

  /** `mapPayloadToMessage`: null for a missing row; id and instant copied as they are. */
  function MapPayloadToMessage(row: Option<MessageRow>): (r: Option<Message>)
    ensures r.None? <==> row.None?
    ensures r.Some? ==>
              && r.value.id == row.value.id
              && r.value.text == OrElse(row.value.content, "")
              && (r.value.senderId == Agent <==> row.value.direction == Some("outbound"))
              && r.value.timestamp == row.value.createdAt && r.value.createdAtRaw == Some(row.value.createdAt)
              && r.value.status == OrElse(row.value.status, "delivered")
              && r.value.kind == OrElse(row.value.kind, "text")
  {
    match row
    case None => None
    case Some(db) =>
      Some(Message(db.id, OrElse(db.content, ""), SenderOf(db.direction), db.createdAt, Some(db.createdAt),
                   OrElse(db.status, "delivered"), OrElse(db.kind, "text")))
  }

  /** What a listener hands to the application: message, raw phone, and the name found in the row. */
  datatype Event = Event(msg: Message, phone: string, contactName: Option<string>)

  /**
   * The guard shared by the INSERT and UPDATE listeners: forward only a row
   * that maps to a message and carries a truthy phone.
   */
  function Forward(row: Option<MessageRow>): (r: Option<Event>)
    ensures r.Some? <==> row.Some? && Truthy(row.value.phone)
    ensures r.Some? ==>
              && Some(r.value.msg) == MapPayloadToMessage(row)
              && r.value.phone == row.value.phone.value && r.value.phone != ""
              && r.value.contactName == RowName(row.value)
  {
    var msg := MapPayloadToMessage(row);
    if msg.Some? && Truthy(row.value.phone) then
      Some(Event(msg.value, row.value.phone.value, RowName(row.value)))
    else None
  }

  /** The row `sendMessage` inserts; `now` is the instant of `new Date()`. */
  function OutboundRow(text: string, phone: string, now: int): MessageRow {
    MessageRow("", Some(text), Some(phone), Some("outbound"), now, Some("sent"), Some("text"), None, None, None, None)
  }

  /**
   * The row an agent writes comes back through the feed as an agent message
   * with that text, status "sent" and kind "text".
   */
  lemma OutboundRowEcho(text: string, phone: string, now: int)
    requires phone != ""
    ensures var e := Forward(Some(OutboundRow(text, phone, now)));
            && e.Some? && e.value.phone == phone && e.value.contactName == None
            && e.value.msg.senderId == Agent && e.value.msg.text == text
            && e.value.msg.status == "sent" && e.value.msg.kind == "text"
  {
  }

  class RealtimeService {
    var client: Option<Client>
    var subscription: Option<nat>
    var isConnected: bool
    /** The channels the library keeps open, by handle. */
    var openChannels: set<nat>
    /** The handle the next channel gets. */
    var nextChannel: nat

    /** At most the current subscription is open, and a subscription needs a client. */
    ghost predicate Valid()
      reads this
    {
      && (subscription.Some? ==> client.Some? && subscription.value < nextChannel)
      && openChannels <= (if subscription.Some? then {subscription.value} else {})
    }

    constructor ()
      ensures Valid()
      ensures client == None && subscription == None && !isConnected && openChannels == {}
    {
      client, subscription, isConnected := None, None, false;
      openChannels, nextChannel := {}, 0;
    }

    function GetStatus(): bool
      reads this
    {
      isConnected
    }

    /** `disconnect`: closes the subscription's channel; the fields keep their values. */
    method Disconnect()
      requires Valid()
      modifies this
      ensures Valid()
      ensures openChannels == {}
      ensures client == old(client) && subscription == old(subscription) && isConnected == old(isConnected)
      ensures nextChannel == old(nextChannel)
    {
      if subscription.Some? && client.Some? {
        openChannels := openChannels - {subscription.value};
      }
    }

    /**
     * `initialize`: empty credentials change nothing; otherwise an existing
     * client is disconnected first, then a new client is made. `createOk`
     * says whether the library's constructor returned; when it throws, the old
     * client stays and the service is marked disconnected.
     */
    method Initialize(url: string, key: string, createOk: bool)
      requires Valid()
      modifies this
      ensures Valid()
      ensures url == "" || key == "" ==>
                client == old(client) && subscription == old(subscription) && isConnected == old(isConnected) &&
                openChannels == old(openChannels) && nextChannel == old(nextChannel)
      ensures url != "" && key != "" ==>
                && client == (if createOk then Some(Client(url, key)) else old(client))
                && isConnected == createOk
                && subscription == old(subscription) && nextChannel == old(nextChannel)
                && openChannels == (if old(client).Some? then {} else old(openChannels))
    {
      if url == "" || key == "" {
        return;
      }
      if client.Some? {
        Disconnect();
      }
      if createOk {
        client := Some(Client(url, key));
        isConnected := true;
      } else {
        isConnected := false;
      }
    }

    /**
     * `connect`: without a client or when marked disconnected, nothing; else
     * the previous channel is removed and a new one subscribed, so exactly one
     * channel stays open.
     */
    method Connect()
      requires Valid()
      modifies this
      ensures Valid()
      ensures old(client).None? || !old(isConnected) ==>
                client == old(client) && subscription == old(subscription) && isConnected == old(isConnected) &&
                openChannels == old(openChannels) && nextChannel == old(nextChannel)
      ensures old(client).Some? && old(isConnected) ==>
                && subscription == Some(old(nextChannel)) && openChannels == {old(nextChannel)}
                && nextChannel == old(nextChannel) + 1
                && client == old(client) && isConnected
    {
      if client.None? || !isConnected {
        return;
      }
      if subscription.Some? {
        openChannels := openChannels - {subscription.value};
      }
      subscription := Some(nextChannel);
      openChannels := openChannels + {nextChannel};
      nextChannel := nextChannel + 1;
    }

    /**
     * `sendMessage`: throws when unconfigured; otherwise inserts the outbound
     * row, and throws when the database reports an error (`writeOk` false).
     */
    method SendMessage(text: string, phone: string, now: int, writeOk: bool) returns (r: SendResult)
      ensures client.None? <==> r == NotConfigured
      ensures client.Some? && writeOk ==> r == Written(OutboundRow(text, phone, now))
      ensures client.Some? && !writeOk ==> r == WriteFailed(OutboundRow(text, phone, now))
    {
      if client.None? {
        return NotConfigured;
      }
      var row := OutboundRow(text, phone, now);
      if writeOk {
        r := Written(row);
      } else {
        r := WriteFailed(row);
      }
    }

    /**
     * `fetchHistory`: the rows the database answers to the query for the
     * `messages` table in ascending creation order limited to `HistoryLimit`
     * (500); `[]` when unconfigured, on an error, on a throw or on null data.
     * `fetch(limit)` is that answer; its order and bound are the database's.
     */
    method FetchHistory(fetch: nat -> HistoryResponse) returns (rows: seq<MessageRow>)
      ensures client.None? ==> rows == []
      ensures client.Some? ==>
                rows == match fetch(HistoryLimit)
                        case HistoryData(Some(d)) => d
                        case _ => []
    {
      if client.None? {
        return [];
      }
      var response := fetch(HistoryLimit);
      match response {
        case HistoryThrew => rows := [];
        case HistoryError => rows := [];
        case HistoryData(data) =>
          rows := if data.Some? then data.value else [];
      }
    }

    /**
     * `fetchContactByPhone`: looks the contact up by the pattern
     * `%<digits>%`; null when unconfigured, when nothing single matches
     * (error code PGRST116), on any other error and on a throw.
     */
    method FetchContactByPhone(phone: string, lookup: string -> ContactResponse) returns (contact: Option<Contact>)
      ensures client.None? ==> contact == None
      ensures client.Some? ==>
                contact == match lookup("%" + Digits(phone) + "%")
                           case ContactFound(c) => Some(c)
                           case _ => None
    {
      if client.None? {
        return None;
      }
      var cleanPhone := Digits(phone);
      var response := lookup("%" + cleanPhone + "%");
      match response {
        case ContactThrew => contact := None;
        case ContactError(code) =>
          // "PGRST116" (no single match) and any other code differ only in what the source logs.
          contact := None;
        case ContactFound(c) => contact := Some(c);
      }
    }
  }

  /** A service that was never initialised answers every read with nothing and refuses to send. */
  method UninitialisedService(text: string, phone: string, now: int, fetch: nat -> HistoryResponse,
                              lookup: string -> ContactResponse)
    returns (rows: seq<MessageRow>, contact: Option<Contact>, sent: SendResult)
    ensures rows == [] && contact == None && sent == NotConfigured
  {
    var service := new RealtimeService();
    rows := service.FetchHistory(fetch);
    contact := service.FetchContactByPhone(phone, lookup);
    sent := service.SendMessage(text, phone, now, true);
  }

  /**
   * The service's life cycle: after initialising with credentials and
   * connecting, exactly one channel is open; after disconnecting, none, yet
   * the status still reads connected.
   */
  method Lifecycle(url: string, key: string) returns (openAfterConnect: set<nat>, openAfterDisconnect: set<nat>, status: bool)
    requires url != "" && key != ""
    ensures |openAfterConnect| == 1 && openAfterDisconnect == {} && status
  {
    var service := new RealtimeService();
    service.Initialize(url, key, true);
    service.Connect();
    openAfterConnect := service.openChannels;
    service.Disconnect();
    openAfterDisconnect := service.openChannels;
    status := service.GetStatus();
  }
}
