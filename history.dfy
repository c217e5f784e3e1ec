/**
 * `loadHistory` (App.tsx): folds the flat rows of the history fetch into one
 * conversation per digit-only phone, then sorts every thread and the list.
 *
 * `Group` is the fold as a function, one `Step` per row; the method
 * `LoadHistory` is the imperative loop of the source, proved to compute it.
 */
module History {
  import opened Wrappers
  import opened Text
  import opened Types
  import opened Utils
  import opened Ordering
  import Sorting
  import Tally
  import Socket

  /** The `Map` of conversations keyed by digit phone, with its insertion order. */
  datatype Groups = Groups(order: seq<string>, convs: map<string, Conversation>)

  datatype HistoryResult = HistoryResult(conversations: seq<Conversation>, active: Option<string>)

  /**
   * The message built from a history row. `fallbackId` stands for the
   * `temp-${Date.now()}-${Math.random()}` id of a row without one.
   */
  function MapHistoryRow(row: MessageRow, fallbackId: string): Message {
    Message(
      if row.id != "" then row.id else fallbackId,
      OrElse(row.content, ""),
      SenderOf(row.direction),
      row.createdAt,
      Some(row.createdAt),
      OrElse(row.status, "delivered"),
      OrElse(row.kind, "text"))
  }

  /**
   * A row with an id maps to the same message here as in the realtime feed;
   * only an id-less row differs (history invents an id, the feed keeps "").
   */
  lemma RealtimeAgreesWithHistory(row: MessageRow, fallbackId: string)
    ensures row.id != "" ==> Socket.MapPayloadToMessage(Some(row)) == Some(MapHistoryRow(row, fallbackId))
    ensures row.id == "" ==> Socket.MapPayloadToMessage(Some(row)).value.id == "" &&
                             MapHistoryRow(row, fallbackId).id == fallbackId
  {
  }

  /** The digit phone a row is grouped under; None for a row without a phone. */
  function RowKey(row: MessageRow): Option<string> {
    if Truthy(row.phone) then Some(Digits(row.phone.value)) else None
  }

  /** The row's name when it has one, else the formatted phone. */
  function DisplayName(row: MessageRow): string
    requires Truthy(row.phone)
  {
    OrElse(RowName(row), FormatPhone(row.phone.value))
  }

  function NewHistoryConversation(phone: string, name: string, msg: Message): Conversation {
    Conversation(phone, name, phone, msg.text, msg.timestamp, 0, Active, WhatsApp, ["Histórico"], [])
  }

  /** The overwrite guard: a real name from the row replaces only the placeholder. */
  function Rename(c: Conversation, dbName: Option<string>): (r: Conversation)
    ensures !HasGenericName(c) ==> r == c
    ensures !Truthy(dbName) ==> r == c
    ensures Truthy(dbName) && HasGenericName(c) ==> r == c.(contactName := dbName.value)
  {
    if Truthy(dbName) && HasGenericName(c) then c.(contactName := dbName.value) else c
  }

  /** Appends a message to the thread; the cached last message moves only to a strictly later timestamp. */
  function Push(c: Conversation, msg: Message): Conversation {
    var c1 := c.(messages := c.messages + [msg]);
    if msg.timestamp > c1.lastMessageTime then c1.(lastMessage := msg.text, lastMessageTime := msg.timestamp)
    else c1
  }

  /** One iteration of `history.forEach`. */
  function Step(g: Groups, row: MessageRow, fallbackId: string): Groups
  {
    if !Truthy(row.phone) then g
    else
      var phone := row.phone.value;
      var cleanPhone := Digits(phone);
      var msg := MapHistoryRow(row, fallbackId);
      var named :=
        if cleanPhone !in g.convs then NewHistoryConversation(phone, DisplayName(row), msg)
        else Rename(g.convs[cleanPhone], RowName(row));
      Groups(if cleanPhone in g.convs then g.order else g.order + [cleanPhone],
             g.convs[cleanPhone := Push(named, msg)])
  }

  /**
   * What one row does to the map: a phoneless row is skipped; otherwise the
   * row's message is appended to its phone's conversation, created on first
   * sight, renamed only from a placeholder, its cached last message moved only
   * to a strictly later timestamp; every other conversation is untouched.
   */
  lemma StepEffect(g: Groups, row: MessageRow, fallbackId: string)
    ensures !Truthy(row.phone) ==> Step(g, row, fallbackId) == g
    ensures Truthy(row.phone) ==>
              var k, msg := Digits(row.phone.value), MapHistoryRow(row, fallbackId);
              && Step(g, row, fallbackId).convs.Keys == g.convs.Keys + {k}
              && (forall k' :: k' in g.convs && k' != k ==> Step(g, row, fallbackId).convs[k'] == g.convs[k'])
              && Step(g, row, fallbackId).convs[k].messages == (if k in g.convs then g.convs[k].messages else []) + [msg]
    // the first row for a phone creates the conversation
    ensures Truthy(row.phone) && Digits(row.phone.value) !in g.convs ==>
              var c := Step(g, row, fallbackId).convs[Digits(row.phone.value)];
              && c.id == row.phone.value && c.contactPhone == row.phone.value
              && c.contactName == DisplayName(row) && c.unreadCount == 0
              && Step(g, row, fallbackId).order == g.order + [Digits(row.phone.value)]
    // a later row renames only a placeholder, and only with a real name
    ensures Truthy(row.phone) && Digits(row.phone.value) in g.convs ==>
              var old_c, c := g.convs[Digits(row.phone.value)], Step(g, row, fallbackId).convs[Digits(row.phone.value)];
              && c.id == old_c.id && c.contactPhone == old_c.contactPhone && c.unreadCount == old_c.unreadCount
              && c.contactName == (if Truthy(RowName(row)) && HasGenericName(old_c) then RowName(row).value else old_c.contactName)
              && Step(g, row, fallbackId).order == g.order
    // the cached last message moves only to a strictly later timestamp
    ensures Truthy(row.phone) && Digits(row.phone.value) in g.convs ==>
              var old_c, c, msg := g.convs[Digits(row.phone.value)], Step(g, row, fallbackId).convs[Digits(row.phone.value)], MapHistoryRow(row, fallbackId);
              (c.lastMessage, c.lastMessageTime) ==
                (if msg.timestamp > old_c.lastMessageTime then (msg.text, msg.timestamp) else (old_c.lastMessage, old_c.lastMessageTime))
  {
  }

  /** The whole `forEach` over the rows. `fallbackIds[i]` is the id a row `i` without id gets. */
  function Group(rows: seq<MessageRow>, fallbackIds: seq<string>): Groups
    requires |fallbackIds| == |rows|
  {
    if rows == [] then Groups([], map[])
    else
      var n := |rows| - 1;
      Step(Group(rows[..n], fallbackIds[..n]), rows[n], fallbackIds[n])
  }

  /** The messages of the rows with digit phone `k`, in row order. */
  function RowMessages(rows: seq<MessageRow>, fallbackIds: seq<string>, k: string): seq<Message>
    requires |fallbackIds| == |rows|
  {
    if rows == [] then []
    else
      var n := |rows| - 1;
      RowMessages(rows[..n], fallbackIds[..n], k) +
      (if RowKey(rows[n]) == Some(k) then [MapHistoryRow(rows[n], fallbackIds[n])] else [])
  }

  /**
   * The cached last message is the first message, in arrival order, with the
   * greatest timestamp.
   */
  ghost predicate FirstLatestCached(c: Conversation) {
    && |c.messages| > 0
    && (forall m :: m in c.messages ==> m.timestamp <= c.lastMessageTime)
    && exists i :: 0 <= i < |c.messages| && c.messages[i].timestamp == c.lastMessageTime &&
                   c.messages[i].text == c.lastMessage &&
                   forall j :: 0 <= j < i ==> c.messages[j].timestamp < c.lastMessageTime
  }

  /** What every conversation built from history satisfies. */
  ghost predicate HistoryConversation(c: Conversation, k: string) {
    && Key(c) == k
    && c.id == c.contactPhone
    && c.unreadCount == 0
    && c.status == Active
    && c.platform == WhatsApp
    && c.tags == ["Histórico"]
    && FirstLatestCached(c)
  }

  ghost predicate GroupsValid(g: Groups) {
    && Tally.Distinct(g.order)
    && (forall k :: k in g.order <==> k in g.convs)
    && (forall k :: k in g.convs ==> HistoryConversation(g.convs[k], k))
  }

  lemma PushKeepsLatest(c: Conversation, msg: Message)
    requires c.messages == [] ==> c.lastMessageTime == msg.timestamp && c.lastMessage == msg.text
    requires c.messages != [] ==> FirstLatestCached(c)
    ensures FirstLatestCached(Push(c, msg))
  {
    var r := Push(c, msg);
    if c.messages == [] {
      assert r.messages[0] == msg;
    } else if msg.timestamp > c.lastMessageTime {
      var n := |c.messages|;
      assert r.messages[n] == msg;
      forall j | 0 <= j < n ensures r.messages[j].timestamp < r.lastMessageTime {
        assert r.messages[j] == c.messages[j] && c.messages[j] in c.messages;
      }
    } else {
      var i :| 0 <= i < |c.messages| && c.messages[i].timestamp == c.lastMessageTime &&
               c.messages[i].text == c.lastMessage &&
               forall j :: 0 <= j < i ==> c.messages[j].timestamp < c.lastMessageTime;
      assert r.messages[i] == c.messages[i];
      forall j | 0 <= j < i ensures r.messages[j].timestamp < r.lastMessageTime {
        assert r.messages[j] == c.messages[j];
      }
    }
  }

  lemma StepValid(g: Groups, row: MessageRow, fallbackId: string)
    requires GroupsValid(g)
    ensures GroupsValid(Step(g, row, fallbackId))
  {
    if Truthy(row.phone) {
      if Digits(row.phone.value) in g.convs {
        StepValidKnown(g, row, fallbackId);
      } else {
        StepValidNew(g, row, fallbackId);
      }
    }
  }

  /** A row for a phone already in the map keeps the map valid. */
  lemma StepValidKnown(g: Groups, row: MessageRow, fallbackId: string)
    requires GroupsValid(g) && Truthy(row.phone) && Digits(row.phone.value) in g.convs
    ensures GroupsValid(Step(g, row, fallbackId))
  {
    var k := Digits(row.phone.value);
    PushKeepsLatest(Rename(g.convs[k], RowName(row)), MapHistoryRow(row, fallbackId));
  }

  /** A row for a phone not yet in the map keeps the map valid. */
  lemma StepValidNew(g: Groups, row: MessageRow, fallbackId: string)
    requires GroupsValid(g) && Truthy(row.phone) && Digits(row.phone.value) !in g.convs
    ensures GroupsValid(Step(g, row, fallbackId))
  {
    var phone := row.phone.value;
    var msg := MapHistoryRow(row, fallbackId);
    PushKeepsLatest(NewHistoryConversation(phone, DisplayName(row), msg), msg);
    Tally.DistinctSnoc(g.order, Digits(phone));
  }

  /** The fold builds one valid conversation per digit phone, listed once in `order`. */
  lemma {:induction false} GroupValid(rows: seq<MessageRow>, fallbackIds: seq<string>)
    requires |fallbackIds| == |rows|
    ensures GroupsValid(Group(rows, fallbackIds))
  {
    if rows != [] {
      var n := |rows| - 1;
      GroupValid(rows[..n], fallbackIds[..n]);
      StepValid(Group(rows[..n], fallbackIds[..n]), rows[n], fallbackIds[n]);
    }
  }

  /** The key order of the fold lists every conversation exactly once. */
  lemma GroupOrder(rows: seq<MessageRow>, fallbackIds: seq<string>)
    requires |fallbackIds| == |rows|
    ensures Tally.Distinct(Group(rows, fallbackIds).order)
    ensures forall k :: k in Group(rows, fallbackIds).order <==> k in Group(rows, fallbackIds).convs
  {
    GroupValid(rows, fallbackIds);
  }

  /**
   * Each conversation of the fold holds exactly its phone's messages in row
   * order, and no conversation exists for a phone no row carries.
   */
  lemma {:induction false} GroupMessages(rows: seq<MessageRow>, fallbackIds: seq<string>)
    requires |fallbackIds| == |rows|
    ensures var g := Group(rows, fallbackIds);
            forall k :: (k in g.convs ==> g.convs[k].messages == RowMessages(rows, fallbackIds, k)) &&
                        (k !in g.convs ==> RowMessages(rows, fallbackIds, k) == [])
  {
    if rows != [] {
      var n := |rows| - 1;
      GroupMessages(rows[..n], fallbackIds[..n]);
      StepEffect(Group(rows[..n], fallbackIds[..n]), rows[n], fallbackIds[n]);
    }
  }

  /** A row with a phone lands among the messages of its digit phone. */
  lemma {:induction false} RowMessagesContains(rows: seq<MessageRow>, fallbackIds: seq<string>, i: int)
    requires |fallbackIds| == |rows|
    requires 0 <= i < |rows| && Truthy(rows[i].phone)
    ensures MapHistoryRow(rows[i], fallbackIds[i]) in RowMessages(rows, fallbackIds, Digits(rows[i].phone.value))
  {
    var n := |rows| - 1;
    if i < n {
      assert rows[..n][i] == rows[i] && fallbackIds[..n][i] == fallbackIds[i];
      RowMessagesContains(rows[..n], fallbackIds[..n], i);
    }
  }

  /** As many messages for `k` as rows with digit phone `k`. */
  lemma {:induction false} RowMessagesCount(rows: seq<MessageRow>, fallbackIds: seq<string>, k: string)
    requires |fallbackIds| == |rows|
    ensures |RowMessages(rows, fallbackIds, k)| == |Tally.Select(rows, RowKey, Some(k))|
  {
    if rows != [] {
      var n := |rows| - 1;
      RowMessagesCount(rows[..n], fallbackIds[..n], k);
      assert rows == rows[..n] + [rows[n]];
      Tally.SelectConcat(rows[..n], [rows[n]], RowKey, Some(k));
      assert [rows[n]][1..] == [];
    }
  }

  function SortThread(c: Conversation): (r: Conversation)
    ensures r == c.(messages := r.messages)
    ensures multiset(r.messages) == multiset(c.messages) && MessagesSorted(r.messages)
  {
    c.(messages := SortMessages(c.messages))
  }

  /** The map's conversations, in the given key order, each with its thread sorted. */
  function Collect(order: seq<string>, convs: map<string, Conversation>): (r: seq<Conversation>)
    requires forall k :: k in order ==> k in convs
    ensures |r| == |order|
    ensures forall i :: 0 <= i < |order| ==> r[i] == SortThread(convs[order[i]])
  {
    if order == [] then [] else [SortThread(convs[order[0]])] + Collect(order[1..], convs)
  }

  /** The grouped conversations in first-seen order, each with its thread sorted. */
  function Loaded(rows: seq<MessageRow>, fallbackIds: seq<string>): (r: seq<Conversation>)
    requires |fallbackIds| == |rows|
    ensures |r| == |Group(rows, fallbackIds).order|
  {
    GroupOrder(rows, fallbackIds);
    Collect(Group(rows, fallbackIds).order, Group(rows, fallbackIds).convs)
  }

  /** The result of `loadHistory`: the sorted list and the conversation made active. */
  function LoadHistorySpec(rows: seq<MessageRow>, fallbackIds: seq<string>, prevActive: Option<string>): (r: HistoryResult)
    requires |fallbackIds| == |rows|
    ensures rows == [] ==> r.conversations == [] && r.active == prevActive
    ensures multiset(r.conversations) == multiset(Loaded(rows, fallbackIds))
    ensures forall i, j :: 0 <= i < j < |r.conversations| ==>
              r.conversations[i].lastMessageTime >= r.conversations[j].lastMessageTime
    ensures forall c :: c in r.conversations ==> MessagesSorted(c.messages)
    ensures r.active == if r.conversations == [] then prevActive else Some(r.conversations[0].id)
  {
    LoadedThreadsSorted(rows, fallbackIds);
    var sorted := SortByRecency(Loaded(rows, fallbackIds));
    HistoryResult(sorted, if sorted == [] then prevActive else Some(sorted[0].id))
  }

  /** Every thread of the re-sorted list is in message order. */
  lemma LoadedThreadsSorted(rows: seq<MessageRow>, fallbackIds: seq<string>)
    requires |fallbackIds| == |rows|
    ensures forall c :: c in SortByRecency(Loaded(rows, fallbackIds)) ==> MessagesSorted(c.messages)
  {
    var list := Loaded(rows, fallbackIds);
    var sorted := SortByRecency(list);
    forall c | c in sorted ensures MessagesSorted(c.messages) {
      assert c in multiset(list);
      GroupOrder(rows, fallbackIds);
      var i :| 0 <= i < |list| && list[i] == c;
    }
  }

  /** The cached last message has the greatest timestamp of the thread and is one of its messages. */
  ghost predicate CachesLatest(c: Conversation) {
    && (forall m :: m in c.messages ==> m.timestamp <= c.lastMessageTime)
    && (exists m :: m in c.messages && m.timestamp == c.lastMessageTime && m.text == c.lastMessage)
  }

  /** A conversation as history creates it, read without regard to message order. */
  ghost predicate HistoryShape(c: Conversation) {
    && c.id == c.contactPhone && c.unreadCount == 0 && c.status == Active && c.tags == ["Histórico"]
    && CachesLatest(c)
  }

  lemma SortThreadShape(u: Conversation, k: string)
    requires HistoryConversation(u, k)
    ensures Key(SortThread(u)) == k && HistoryShape(SortThread(u))
  {
    var c := SortThread(u);
    forall m | m in c.messages ensures m.timestamp <= c.lastMessageTime {
      assert m in multiset(c.messages);
    }
    var w :| 0 <= w < |u.messages| && u.messages[w].timestamp == u.lastMessageTime && u.messages[w].text == u.lastMessage &&
             forall j :: 0 <= j < w ==> u.messages[j].timestamp < u.lastMessageTime;
    assert u.messages[w] in multiset(c.messages);
  }

  /** One loaded conversation: its key, its messages, its shape. */
  lemma LoadedAt(rows: seq<MessageRow>, fallbackIds: seq<string>, i: int)
    requires |fallbackIds| == |rows|
    requires 0 <= i < |Loaded(rows, fallbackIds)|
    ensures var c := Loaded(rows, fallbackIds)[i];
            && Key(c) == Group(rows, fallbackIds).order[i]
            && multiset(c.messages) == multiset(RowMessages(rows, fallbackIds, Key(c)))
            && HistoryShape(c)
  {
    GroupValid(rows, fallbackIds);
    GroupMessages(rows, fallbackIds);
    var g := Group(rows, fallbackIds);
    SortThreadShape(g.convs[g.order[i]], g.order[i]);
  }

  /** One loaded conversation per digit phone. */
  lemma LoadedUnique(rows: seq<MessageRow>, fallbackIds: seq<string>)
    requires |fallbackIds| == |rows|
    ensures Sorting.UniqueBy(Loaded(rows, fallbackIds), Key)
  {
    var list := Loaded(rows, fallbackIds);
    GroupOrder(rows, fallbackIds);
    forall i, j | 0 <= i < j < |list| ensures Key(list[i]) != Key(list[j]) {
      LoadedAt(rows, fallbackIds, i);
      LoadedAt(rows, fallbackIds, j);
    }
  }

  /** A row with a phone is among the messages of a loaded conversation with its digit phone. */
  lemma LoadedHasRow(rows: seq<MessageRow>, fallbackIds: seq<string>, i: int)
    requires |fallbackIds| == |rows|
    requires 0 <= i < |rows| && Truthy(rows[i].phone)
    ensures exists j :: 0 <= j < |Loaded(rows, fallbackIds)| &&
                        Key(Loaded(rows, fallbackIds)[j]) == Digits(rows[i].phone.value) &&
                        MapHistoryRow(rows[i], fallbackIds[i]) in Loaded(rows, fallbackIds)[j].messages
  {
    var k := Digits(rows[i].phone.value);
    RowMessagesContains(rows, fallbackIds, i);
    GroupOrder(rows, fallbackIds);
    GroupMessages(rows, fallbackIds);
    var g := Group(rows, fallbackIds);
    assert k in g.order;
    var j :| 0 <= j < |g.order| && g.order[j] == k;
    LoadedAt(rows, fallbackIds, j);
    assert MapHistoryRow(rows[i], fallbackIds[i]) in multiset(Loaded(rows, fallbackIds)[j].messages);
  }

  lemma {:induction false} CollectCount(rows: seq<MessageRow>, fallbackIds: seq<string>, order: seq<string>, convs: map<string, Conversation>)
    requires |fallbackIds| == |rows|
    requires forall k :: k in order ==> k in convs && convs[k].messages == RowMessages(rows, fallbackIds, k)
    ensures Tally.SumOf(Collect(order, convs), MessageCount) == Tally.SumCounts(rows, RowKey, Tally.Somes(order))
  {
    if order != [] {
      CollectCount(rows, fallbackIds, order[1..], convs);
      RowMessagesCount(rows, fallbackIds, order[0]);
      assert Collect(order, convs)[1..] == Collect(order[1..], convs);
      assert Tally.Somes(order)[1..] == Tally.Somes(order[1..]);
    }
  }

  lemma LoadedCount(rows: seq<MessageRow>, fallbackIds: seq<string>)
    requires |fallbackIds| == |rows|
    ensures Tally.SumOf(Loaded(rows, fallbackIds), MessageCount) == |rows| - |Tally.Select(rows, RowKey, None)|
  {
    GroupOrder(rows, fallbackIds);
    GroupMessages(rows, fallbackIds);
    var g := Group(rows, fallbackIds);
    CollectCount(rows, fallbackIds, g.order, g.convs);
    forall row | row in rows && RowKey(row).Some? ensures RowKey(row).value in g.order {
      var i :| 0 <= i < |rows| && rows[i] == row;
      RowMessagesContains(rows, fallbackIds, i);
    }
    Tally.OptionalPartition(rows, RowKey, g.order);
  }

  /**
   * Conservation: the loaded threads hold one message per row that has a
   * phone; exactly the rows without a phone are dropped.
   */
  lemma LoadHistoryCount(rows: seq<MessageRow>, fallbackIds: seq<string>, prevActive: Option<string>)
    requires |fallbackIds| == |rows|
    ensures Tally.SumOf(LoadHistorySpec(rows, fallbackIds, prevActive).conversations, MessageCount) ==
            |rows| - |Tally.Select(rows, RowKey, None)|
  {
    LoadedCount(rows, fallbackIds);
    Tally.SumOfPermutation(LoadHistorySpec(rows, fallbackIds, prevActive).conversations, Loaded(rows, fallbackIds), MessageCount);
  }

  /**
   * Grouping: one conversation per digit phone, each holding exactly the
   * messages of the rows with that phone, and every row with a phone among the
   * messages of the one conversation whose digit phone matches.
   */
  lemma LoadHistoryGrouping(rows: seq<MessageRow>, fallbackIds: seq<string>, prevActive: Option<string>)
    requires |fallbackIds| == |rows|
    ensures var cs := LoadHistorySpec(rows, fallbackIds, prevActive).conversations;
            && Sorting.UniqueBy(cs, Key)
            && (forall c :: c in cs ==> multiset(c.messages) == multiset(RowMessages(rows, fallbackIds, Key(c))))
            && (forall i :: 0 <= i < |rows| && Truthy(rows[i].phone) ==>
                  exists c :: c in cs && Key(c) == Digits(rows[i].phone.value) &&
                              MapHistoryRow(rows[i], fallbackIds[i]) in c.messages)
  {
    var list := Loaded(rows, fallbackIds);
    var cs := LoadHistorySpec(rows, fallbackIds, prevActive).conversations;
    LoadedUnique(rows, fallbackIds);
    SortByRecencyUnique(list);
    forall c | c in cs ensures multiset(c.messages) == multiset(RowMessages(rows, fallbackIds, Key(c))) {
      assert c in multiset(list);
      var i :| 0 <= i < |list| && list[i] == c;
      LoadedAt(rows, fallbackIds, i);
    }
    forall i | 0 <= i < |rows| && Truthy(rows[i].phone)
      ensures exists c :: c in cs && Key(c) == Digits(rows[i].phone.value) &&
                          MapHistoryRow(rows[i], fallbackIds[i]) in c.messages
    {
      LoadedHasRow(rows, fallbackIds, i);
      var j :| 0 <= j < |list| && Key(list[j]) == Digits(rows[i].phone.value) &&
               MapHistoryRow(rows[i], fallbackIds[i]) in list[j].messages;
      assert list[j] in multiset(cs);
    }
  }

  /**
   * Every loaded conversation is keyed by its raw phone, unread, active, tagged
   * "Histórico", and caches a message with the greatest timestamp of its thread.
   */
  lemma LoadHistoryConversations(rows: seq<MessageRow>, fallbackIds: seq<string>, prevActive: Option<string>)
    requires |fallbackIds| == |rows|
    ensures forall c :: c in LoadHistorySpec(rows, fallbackIds, prevActive).conversations ==> HistoryShape(c)
  {
    var list := Loaded(rows, fallbackIds);
    forall c | c in LoadHistorySpec(rows, fallbackIds, prevActive).conversations ensures HistoryShape(c) {
      assert c in multiset(list);
      var i :| 0 <= i < |list| && list[i] == c;
      LoadedAt(rows, fallbackIds, i);
    }
  }

  /** The name guard over the whole fold: once a name is real, later rows never change it. */
  lemma {:induction false} NameNeverReverted(rows: seq<MessageRow>, fallbackIds: seq<string>, i: nat, j: nat, k: string)
    requires |fallbackIds| == |rows|
    requires i <= j <= |rows|
    requires k in Group(rows[..i], fallbackIds[..i]).convs
    requires !HasGenericName(Group(rows[..i], fallbackIds[..i]).convs[k])
    ensures k in Group(rows[..j], fallbackIds[..j]).convs
    ensures Group(rows[..j], fallbackIds[..j]).convs[k].contactName == Group(rows[..i], fallbackIds[..i]).convs[k].contactName
    ensures Group(rows[..j], fallbackIds[..j]).convs[k].contactPhone == Group(rows[..i], fallbackIds[..i]).convs[k].contactPhone
    decreases j - i
  {
    if i < j {
      var g := Group(rows[..i], fallbackIds[..i]);
      assert rows[..i + 1][..i] == rows[..i] && fallbackIds[..i + 1][..i] == fallbackIds[..i];
      assert rows[..i + 1][i] == rows[i] && fallbackIds[..i + 1][i] == fallbackIds[i];
      var g' := Group(rows[..i + 1], fallbackIds[..i + 1]);
      assert g' == Step(g, rows[i], fallbackIds[i]);
      StepEffect(g, rows[i], fallbackIds[i]);
      assert k in g'.convs && g'.convs[k].contactName == g.convs[k].contactName;
      NameNeverReverted(rows, fallbackIds, i + 1, j, k);
    }
  }

  /** One iteration of the `forEach`: one row into the map and its key order. */
  method AddRow(order0: seq<string>, map0: map<string, Conversation>, msg: MessageRow, fallbackId: string)
    returns (order: seq<string>, conversationsMap: map<string, Conversation>)
    ensures Groups(order, conversationsMap) == Step(Groups(order0, map0), msg, fallbackId)
  {
    order, conversationsMap := order0, map0;
    if Truthy(msg.phone) {
      var phone := msg.phone.value;
      var cleanPhone := Digits(phone);
      var appMsg := MapHistoryRow(msg, fallbackId);
      var dbName := RowName(msg);
      var displayName := OrElse(dbName, FormatPhone(phone));
      if cleanPhone !in conversationsMap {
        conversationsMap := conversationsMap[cleanPhone := NewHistoryConversation(phone, displayName, appMsg)];
        order := order + [cleanPhone];
      } else {
        var currentConv := conversationsMap[cleanPhone];
        var isGenericName := currentConv.contactName == FormatPhone(currentConv.contactPhone);
        if Truthy(dbName) && isGenericName {
          conversationsMap := conversationsMap[cleanPhone := currentConv.(contactName := dbName.value)];
        }
      }
      var conv := conversationsMap[cleanPhone];
      conv := conv.(messages := conv.messages + [appMsg]);
      if appMsg.timestamp > conv.lastMessageTime {
        conv := conv.(lastMessage := appMsg.text, lastMessageTime := appMsg.timestamp);
      }
      conversationsMap := conversationsMap[cleanPhone := conv];
    }
  }

  /** The `history.forEach` loop of `loadHistory`, filling the map and its key order. */
  method GroupHistory(history: seq<MessageRow>, fallbackIds: seq<string>)
    returns (order: seq<string>, conversationsMap: map<string, Conversation>)
    requires |fallbackIds| == |history|
    ensures Groups(order, conversationsMap) == Group(history, fallbackIds)
  {
    order, conversationsMap := [], map[];
    var i := 0;
    while i < |history|
      invariant 0 <= i <= |history|
      invariant Groups(order, conversationsMap) == Group(history[..i], fallbackIds[..i])
    {
      assert history[..i + 1][..i] == history[..i] && fallbackIds[..i + 1][..i] == fallbackIds[..i];
      order, conversationsMap := AddRow(order, conversationsMap, history[i], fallbackIds[i]);
      i := i + 1;
    }
    assert history[..i] == history && fallbackIds[..i] == fallbackIds;
  }

  /** The loop sorting every thread by `sortMessages`, then the values in key order. */
  method SortThreads(order: seq<string>, grouped: map<string, Conversation>) returns (values: seq<Conversation>)
    requires Tally.Distinct(order)
    requires forall k :: k in order ==> k in grouped
    ensures values == Collect(order, grouped)
  {
    var conversationsMap := grouped;
    var j := 0;
    while j < |order|
      invariant 0 <= j <= |order|
      invariant conversationsMap.Keys == grouped.Keys
      invariant forall k :: k in grouped ==>
                  conversationsMap[k] == if k in order[..j] then SortThread(grouped[k]) else grouped[k]
    {
      var k := order[j];
      assert order[..j + 1] == order[..j] + [k];
      assert k !in order[..j] by {
        forall t | 0 <= t < j ensures order[..j][t] != k {
          assert order[..j][t] == order[t];
        }
      }
      conversationsMap := conversationsMap[k := conversationsMap[k].(messages := SortMessages(conversationsMap[k].messages))];
      j := j + 1;
    }
    assert order[..j] == order;
    values := seq(|order|, n requires 0 <= n < |order| => conversationsMap[order[n]]);
  }

  /**
   * `loadHistory` as the source runs it: a loop filling a map and its key
   * order, a loop sorting every thread, then the list sorted by recency.
   * On an empty history the list becomes empty; the active conversation moves
   * to the head of the list only when there is one.
   */
  method LoadHistory(history: seq<MessageRow>, fallbackIds: seq<string>, prevActive: Option<string>)
    returns (conversations: seq<Conversation>, active: Option<string>)
    requires |fallbackIds| == |history|
    ensures HistoryResult(conversations, active) == LoadHistorySpec(history, fallbackIds, prevActive)
  {
    if |history| == 0 {
      conversations, active := [], prevActive;
      return;
    }
    var order, conversationsMap := GroupHistory(history, fallbackIds);
    GroupOrder(history, fallbackIds);
    var values := SortThreads(order, conversationsMap);
    conversations := SortByRecency(values);
    if |conversations| > 0 {
      active := Some(conversations[0].id);
    } else {
      active := prevActive;
    }
  }
}
