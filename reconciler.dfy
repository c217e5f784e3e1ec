/**
 * The realtime handlers and the optimistic send of App.tsx, as functions from
 * the conversation list before an event to the list after it. The active
 * conversation id, which the handlers read from component state, and the
 * clock readings of the send are parameters.
 */
module Reconciler {
  import opened Wrappers
  import opened Text
  import opened Types
  import opened Utils
  import opened Ordering
  import Sorting
  import Tally
  import Socket
  import History

  /** Every digit phone names at most one conversation. */
  predicate UniqueKeys(cs: seq<Conversation>) {
    Sorting.UniqueBy(cs, Key)
  }

  /** The index of the first conversation whose phone has the digits `k`, if any. */
  function FindByKey(cs: seq<Conversation>, k: string): (r: Option<nat>)
    ensures r.Some? ==> r.value < |cs| && Key(cs[r.value]) == k
    ensures r.Some? ==> forall j :: 0 <= j < r.value ==> Key(cs[j]) != k
    ensures r.None? <==> forall j :: 0 <= j < |cs| ==> Key(cs[j]) != k
  {
    if cs == [] then None
    else if Key(cs[0]) == k then Some(0)
    else
      match FindByKey(cs[1..], k)
      case None => None
      case Some(i) => Some(i + 1)
  }

  /** Some message of the thread carries the id. */
  predicate HasId(ms: seq<Message>, id: string) {
    exists i :: 0 <= i < |ms| && ms[i].id == id
  }

  /** The conversation is the active one; no active conversation is None. */
  predicate IsActive(c: Conversation, activeId: Option<string>) {
    activeId == Some(c.id)
  }

  // ---------------------------------------------------------------- insert

  /** The existing conversation after a message with a fresh id arrived for it. */
  function Appended(t: Conversation, msg: Message, contactName: Option<string>, activeId: Option<string>): Conversation {
    t.(contactName := if Truthy(contactName) && HasGenericName(t) then contactName.value else t.contactName,
       messages := SortMessages(t.messages + [msg]),
       lastMessage := msg.text,
       lastMessageTime := msg.timestamp,
       unreadCount := if IsActive(t, activeId) then 0 else t.unreadCount + 1,
       status := Active)
  }

  /** The conversation an insert for an unseen phone creates; its id is the raw phone. */
  function NewRealtimeConversation(msg: Message, phone: string, contactName: Option<string>): Conversation {
    Conversation(phone, OrElse(contactName, FormatPhone(phone)), phone, msg.text, msg.timestamp,
                 1, Active, WhatsApp, ["Novo"], [msg])
  }

  /** The insert is a repeat: the phone's conversation already holds the id. */
  predicate IsDuplicate(convs: seq<Conversation>, msg: Message, phone: string) {
    var found := FindByKey(convs, Digits(phone));
    found.Some? && HasId(convs[found.value].messages, msg.id)
  }

  /** `handleNewRealtimeMessage`: the list after a new message for `phone`. */
  function HandleInsert(convs: seq<Conversation>, msg: Message, phone: string,
                        contactName: Option<string>, activeId: Option<string>): seq<Conversation>
  {
    match FindByKey(convs, Digits(phone))
    case Some(i) =>
      if HasId(convs[i].messages, msg.id) then convs
      else SortByRecency(convs[i := Appended(convs[i], msg, contactName, activeId)])
    case None => [NewRealtimeConversation(msg, phone, contactName)] + convs
  }

  /**
   * A fresh message joins the thread, which stays sorted; the cached last
   * message becomes the new one; unread is reset for the active conversation
   * and counts up otherwise; a name arrives only over the placeholder.
   */
  lemma AppendedShape(t: Conversation, msg: Message, contactName: Option<string>, activeId: Option<string>)
    ensures var u := Appended(t, msg, contactName, activeId);
            && multiset(u.messages) == multiset(t.messages) + multiset{msg}
            && MessagesSorted(u.messages)
            && u.lastMessage == msg.text && u.lastMessageTime == msg.timestamp
            && u.unreadCount == (if IsActive(t, activeId) then 0 else t.unreadCount + 1)
            && u.status == Active
            && u.contactName == (if Truthy(contactName) && HasGenericName(t) then contactName.value else t.contactName)
            && u.id == t.id && u.contactPhone == t.contactPhone && u.tags == t.tags && u.platform == t.platform
  {
  }

  /** A repeated insert leaves the list as it was. */
  lemma InsertDuplicate(convs: seq<Conversation>, msg: Message, phone: string,
                        contactName: Option<string>, activeId: Option<string>)
    requires IsDuplicate(convs, msg, phone)
    ensures HandleInsert(convs, msg, phone, contactName, activeId) == convs
  {
  }

  /**
   * A fresh id for a known phone: the list is the old one with that one
   * conversation replaced by `Appended`, resorted newest first.
   */
  lemma InsertExisting(convs: seq<Conversation>, msg: Message, phone: string,
                       contactName: Option<string>, activeId: Option<string>)
    requires FindByKey(convs, Digits(phone)).Some? && !IsDuplicate(convs, msg, phone)
    ensures var i, r := FindByKey(convs, Digits(phone)).value, HandleInsert(convs, msg, phone, contactName, activeId);
            && |r| == |convs|
            && multiset(r) == multiset(convs) - multiset{convs[i]} + multiset{Appended(convs[i], msg, contactName, activeId)}
            && forall a, b :: 0 <= a < b < |r| ==> r[a].lastMessageTime >= r[b].lastMessageTime
  {
    var i := FindByKey(convs, Digits(phone)).value;
    Tally.MultisetUpdate(convs, i, Appended(convs[i], msg, contactName, activeId));
  }

  /** An unseen phone: one conversation more, in front, holding just the message. */
  lemma InsertNew(convs: seq<Conversation>, msg: Message, phone: string,
                  contactName: Option<string>, activeId: Option<string>)
    requires FindByKey(convs, Digits(phone)).None?
    ensures var r := HandleInsert(convs, msg, phone, contactName, activeId);
            && |r| == |convs| + 1 && r[1..] == convs
            && r[0].id == phone && r[0].contactPhone == phone
            && r[0].contactName == OrElse(contactName, FormatPhone(phone))
            && r[0].unreadCount == 1 && r[0].messages == [msg] && r[0].tags == ["Novo"]
            && r[0].lastMessage == msg.text && r[0].lastMessageTime == msg.timestamp
  {
  }

  /** After an insert, the phone's conversation holds the message id, whatever happened before. */
  lemma {:induction false} InsertDelivers(convs: seq<Conversation>, msg: Message, phone: string,
                                          contactName: Option<string>, activeId: Option<string>)
    ensures var r := HandleInsert(convs, msg, phone, contactName, activeId);
            exists c :: c in r && Key(c) == Digits(phone) && HasId(c.messages, msg.id)
  {
    var r := HandleInsert(convs, msg, phone, contactName, activeId);
    match FindByKey(convs, Digits(phone))
    case Some(i) =>
      if HasId(convs[i].messages, msg.id) {
        assert convs[i] in r;
      } else {
        var u := Appended(convs[i], msg, contactName, activeId);
        AppendedHasId(convs[i], msg, contactName, activeId);
        assert u in multiset(convs[i := u]);
        assert u in r;
      }
    case None =>
      assert r[0].messages[0] == msg;
  }

  /** The appended conversation holds the new message's id. */
  lemma AppendedHasId(t: Conversation, msg: Message, contactName: Option<string>, activeId: Option<string>)
    ensures HasId(Appended(t, msg, contactName, activeId).messages, msg.id)
  {
    var u := Appended(t, msg, contactName, activeId);
    AppendedShape(t, msg, contactName, activeId);
    assert msg in multiset(u.messages);
    var j :| 0 <= j < |u.messages| && u.messages[j] == msg;
  }

  /** Inserting keeps digit phones unique. */
  lemma InsertKeepsUniqueKeys(convs: seq<Conversation>, msg: Message, phone: string,
                              contactName: Option<string>, activeId: Option<string>)
    requires UniqueKeys(convs)
    ensures UniqueKeys(HandleInsert(convs, msg, phone, contactName, activeId))
  {
    var r := HandleInsert(convs, msg, phone, contactName, activeId);
    match FindByKey(convs, Digits(phone))
    case Some(i) =>
      if !HasId(convs[i].messages, msg.id) {
        var u := Appended(convs[i], msg, contactName, activeId);
        var s := convs[i := u];
        assert Sorting.UniqueBy(s, Key) by {
          forall a, b | 0 <= a < b < |s| ensures Key(s[a]) != Key(s[b]) {
            assert Key(s[a]) == Key(convs[a]) && Key(s[b]) == Key(convs[b]);
          }
        }
        SortByRecencyUnique(convs[i := u]);
      }
    case None =>
      forall a, b | 0 <= a < b < |r| ensures Key(r[a]) != Key(r[b]) {
        if a > 0 {
          assert r[a] == convs[a - 1] && r[b] == convs[b - 1];
        }
      }
  }

  /**
   * Applying the same insert twice is applying it once: the second delivery
   * finds the id in the one conversation of that phone.
   */
  lemma InsertIdempotent(convs: seq<Conversation>, msg: Message, phone: string,
                         contactName: Option<string>, activeId: Option<string>)
    requires UniqueKeys(convs)
    ensures var once := HandleInsert(convs, msg, phone, contactName, activeId);
            HandleInsert(once, msg, phone, contactName, activeId) == once
  {
    var k := Digits(phone);
    var once := HandleInsert(convs, msg, phone, contactName, activeId);
    InsertDelivers(convs, msg, phone, contactName, activeId);
    InsertKeepsUniqueKeys(convs, msg, phone, contactName, activeId);
    var c :| c in once && Key(c) == k && HasId(c.messages, msg.id);
    var j :| 0 <= j < |once| && once[j] == c;
    var found := FindByKey(once, k);
    assert found.Some?;
    assert found.value == j;
    assert IsDuplicate(once, msg, phone);
  }

  /** One message more in total, unless the insert is a repeat. */
  lemma InsertMessageCount(convs: seq<Conversation>, msg: Message, phone: string,
                           contactName: Option<string>, activeId: Option<string>)
    ensures Tally.SumOf(HandleInsert(convs, msg, phone, contactName, activeId), MessageCount) ==
            Tally.SumOf(convs, MessageCount) + (if IsDuplicate(convs, msg, phone) then 0 else 1)
  {
    match FindByKey(convs, Digits(phone))
    case Some(i) =>
      if !HasId(convs[i].messages, msg.id) {
        var u := Appended(convs[i], msg, contactName, activeId);
        AppendedShape(convs[i], msg, contactName, activeId);
        assert |u.messages| == |convs[i].messages| + 1 by {
          assert |multiset(u.messages)| == |multiset(convs[i].messages)| + 1;
        }
        Tally.SumOfUpdate(convs, i, u, MessageCount);
        Tally.SumOfPermutation(SortByRecency(convs[i := u]), convs[i := u], MessageCount);
      }
    case None =>
      var r := HandleInsert(convs, msg, phone, contactName, activeId);
      assert r[1..] == convs;
  }

  /**
   * The cached last message is the inserted one even when the thread holds a
   * later message: a late delivery of an old message moves the cache back.
   */
  lemma InsertCacheNotLatest()
    ensures var late := Message("b", "older text", Customer, 5, None, "delivered", "text");
            var newest := Message("a", "newest text", Customer, 10, None, "delivered", "text");
            var c := Conversation("5511", "Ana", "5511", "newest text", 10, 0, Active, WhatsApp, [], [newest]);
            var r := HandleInsert([c], late, "5511", None, None);
            && |r| == 1 && r[0].lastMessage == "older text" && r[0].lastMessageTime == 5
            && exists m :: m in r[0].messages && m.timestamp > r[0].lastMessageTime
  {
    var late := Message("b", "older text", Customer, 5, None, "delivered", "text");
    var newest := Message("a", "newest text", Customer, 10, None, "delivered", "text");
    var c := Conversation("5511", "Ana", "5511", "newest text", 10, 0, Active, WhatsApp, [], [newest]);
    assert FindByKey([c], "5511") == Some(0);
    assert !HasId(c.messages, "b");
    var u := Appended(c, late, None, None);
    AppendedShape(c, late, None, None);
    assert newest in multiset(u.messages);
    var r := HandleInsert([c], late, "5511", None, None);
    assert r == SortByRecency([u]);
    assert multiset(r) == multiset{u};
    assert r[0] in multiset(r);
  }

  // ---------------------------------------------------------------- update

  /** Every message with the update's id is replaced by the update; the others stay. */
  function ReplaceById(ms: seq<Message>, upd: Message): seq<Message> {
    seq(|ms|, j requires 0 <= j < |ms| => if ms[j].id == upd.id then upd else ms[j])
  }

  /** The conversation after an update reached it. */
  function Updated(c: Conversation, upd: Message): Conversation {
    c.(messages := SortMessages(ReplaceById(c.messages, upd)))
  }

  /** `handleMessageUpdate`: every conversation of the phone has the message replaced and resorted. */
  function HandleUpdate(convs: seq<Conversation>, upd: Message, phone: string): seq<Conversation> {
    seq(|convs|, i requires 0 <= i < |convs| => if Key(convs[i]) == Digits(phone) then Updated(convs[i], upd) else convs[i])
  }

  /** Replacement only swaps in the update where the id matches, and keeps the length. */
  lemma ReplaceByIdShape(ms: seq<Message>, upd: Message)
    ensures var r := ReplaceById(ms, upd);
            && |r| == |ms|
            && (forall j :: 0 <= j < |ms| && ms[j].id != upd.id ==> r[j] == ms[j])
            && (forall j :: 0 <= j < |ms| && ms[j].id == upd.id ==> r[j] == upd)
            && (forall m :: m in r ==> m in ms || m == upd)
  {
  }

  /** Replacement is the identity once every message with the id already is the update. */
  lemma ReplaceFixed(ms: seq<Message>, upd: Message)
    requires forall m :: m in ms && m.id == upd.id ==> m == upd
    ensures ReplaceById(ms, upd) == ms
  {
    var r := ReplaceById(ms, upd);
    forall j | 0 <= j < |ms| ensures r[j] == ms[j] {
      assert ms[j] in ms;
    }
  }

  /** An update for an id the thread does not hold changes nothing in it. */
  lemma ReplaceUnknownId(ms: seq<Message>, upd: Message)
    requires !HasId(ms, upd.id)
    ensures ReplaceById(ms, upd) == ms
  {
    var r := ReplaceById(ms, upd);
    forall j | 0 <= j < |ms| ensures r[j] == ms[j] {
      assert ms[j].id != upd.id;
    }
  }

  /**
   * An update keeps the list's length and order and every field but the
   * messages; untouched phones keep their conversation; a matching thread
   * keeps its length and is resorted.
   */
  lemma UpdateFrame(convs: seq<Conversation>, upd: Message, phone: string)
    ensures var r := HandleUpdate(convs, upd, phone);
            && |r| == |convs|
            && (forall i :: 0 <= i < |convs| ==> r[i] == convs[i].(messages := r[i].messages))
            && (forall i :: 0 <= i < |convs| && Key(convs[i]) != Digits(phone) ==> r[i] == convs[i])
            && (forall i :: 0 <= i < |convs| && Key(convs[i]) == Digits(phone) ==>
                  && MessagesSorted(r[i].messages)
                  && multiset(r[i].messages) == multiset(ReplaceById(convs[i].messages, upd))
                  && |r[i].messages| == |convs[i].messages|)
  {
    var r := HandleUpdate(convs, upd, phone);
    forall i | 0 <= i < |convs| && Key(convs[i]) == Digits(phone)
      ensures |r[i].messages| == |convs[i].messages|
    {
      var ms := ReplaceById(convs[i].messages, upd);
      assert |multiset(r[i].messages)| == |multiset(ms)|;
    }
  }

  /** An update keeps digit phones unique and the list sorted newest first. */
  lemma UpdateKeepsInvariants(convs: seq<Conversation>, upd: Message, phone: string)
    requires UniqueKeys(convs)
    requires forall a, b :: 0 <= a < b < |convs| ==> convs[a].lastMessageTime >= convs[b].lastMessageTime
    ensures var r := HandleUpdate(convs, upd, phone);
            && UniqueKeys(r)
            && forall a, b :: 0 <= a < b < |r| ==> r[a].lastMessageTime >= r[b].lastMessageTime
  {
    UpdateFrame(convs, upd, phone);
    var r := HandleUpdate(convs, upd, phone);
    forall a, b | 0 <= a < b < |r| ensures Key(r[a]) != Key(r[b]) {
      assert Key(r[a]) == Key(convs[a]) && Key(r[b]) == Key(convs[b]);
    }
  }

  /** Updates never create or drop a message. */
  lemma UpdateMessageCount(convs: seq<Conversation>, upd: Message, phone: string)
    ensures Tally.SumOf(HandleUpdate(convs, upd, phone), MessageCount) == Tally.SumOf(convs, MessageCount)
  {
    UpdateFrame(convs, upd, phone);
    Tally.SumOfPointwise(HandleUpdate(convs, upd, phone), convs, MessageCount);
  }

  /**
   * An id unknown to the phone's threads leaves every thread's multiset of
   * messages as it was, and the whole list as it was when the threads are
   * sorted already.
   */
  lemma UpdateUnknownId(convs: seq<Conversation>, upd: Message, phone: string)
    requires forall c :: c in convs && Key(c) == Digits(phone) ==> !HasId(c.messages, upd.id)
    ensures var r := HandleUpdate(convs, upd, phone);
            forall i :: 0 <= i < |convs| ==> multiset(r[i].messages) == multiset(convs[i].messages)
    ensures (forall c :: c in convs ==> MessagesSorted(c.messages)) ==> HandleUpdate(convs, upd, phone) == convs
  {
    var r := HandleUpdate(convs, upd, phone);
    forall i | 0 <= i < |convs| && Key(convs[i]) == Digits(phone)
      ensures ReplaceById(convs[i].messages, upd) == convs[i].messages
    {
      assert convs[i] in convs;
      ReplaceUnknownId(convs[i].messages, upd);
    }
    if forall c :: c in convs ==> MessagesSorted(c.messages) {
      forall i | 0 <= i < |convs| ensures r[i] == convs[i] {
        assert convs[i] in convs;
        if Key(convs[i]) == Digits(phone) {
          SortMessagesOfSorted(convs[i].messages);
        }
      }
    }
  }

  /** Receiving the same update twice is receiving it once. */
  lemma UpdateIdempotent(convs: seq<Conversation>, upd: Message, phone: string)
    ensures var once := HandleUpdate(convs, upd, phone);
            HandleUpdate(once, upd, phone) == once
  {
    var once := HandleUpdate(convs, upd, phone);
    var twice := HandleUpdate(once, upd, phone);
    forall i | 0 <= i < |convs| ensures twice[i] == once[i] {
      if Key(convs[i]) == Digits(phone) {
        var ms := once[i].messages;
        forall m | m in ms && m.id == upd.id ensures m == upd {
          assert m in multiset(ReplaceById(convs[i].messages, upd));
          ReplaceByIdShape(convs[i].messages, upd);
        }
        ReplaceFixed(ms, upd);
        SortMessagesOfSorted(ms);
      }
    }
  }

  // ---------------------------------------------------------------- send

  /** What `handleSendMessage` does before its remote write. */
  datatype SendOutcome =
    | Ignored
    | NeedsConfig
    | Sent(conversations: seq<Conversation>, phone: string)

  /** The index of the first conversation with the id, if any. */
  function FindById(cs: seq<Conversation>, id: string): (r: Option<nat>)
    ensures r.Some? ==> r.value < |cs| && cs[r.value].id == id
    ensures r.Some? ==> forall j :: 0 <= j < r.value ==> cs[j].id != id
    ensures r.None? <==> forall j :: 0 <= j < |cs| ==> cs[j].id != id
  {
    if cs == [] then None
    else if cs[0].id == id then Some(0)
    else
      match FindById(cs[1..], id)
      case None => None
      case Some(i) => Some(i + 1)
  }

  /** The optimistic message; `stamp` is `Date.now()` and `now` the `new Date()` beside it. */
  function OptimisticMessage(text: string, stamp: nat, now: int): Message {
    Message("temp-" + Decimal(stamp), text, Agent, now, Some(now), "sent", "text")
  }

  /**
   * `handleSendMessage` up to the remote write. `later` is the second clock
   * reading, taken for `lastMessageTime`. The write's outcome is not an input:
   * a failed write leaves the optimistic state in place.
   */
  function HandleSend(convs: seq<Conversation>, activeId: Option<string>, configured: bool,
                      text: string, stamp: nat, now: int, later: int): (r: SendOutcome)
    ensures !Truthy(activeId) ==> r == Ignored
    ensures Truthy(activeId) && (forall j :: 0 <= j < |convs| ==> convs[j].id != activeId.value) ==> r == Ignored
    ensures Truthy(activeId) && FindById(convs, activeId.value).Some? ==>
              && (configured <==> r.Sent?)
              && (!configured ==> r == NeedsConfig)
              && (configured ==> r.phone == convs[FindById(convs, activeId.value).value].contactPhone)
    ensures r.Sent? ==> configured && exists j :: 0 <= j < |convs| && convs[j].id == activeId.value && convs[j].contactPhone == r.phone
  {
    if !Truthy(activeId) then Ignored
    else
      match FindById(convs, activeId.value)
      case None => Ignored
      case Some(i) =>
        if !configured then NeedsConfig
        else
          var optimistic := OptimisticMessage(text, stamp, now);
          Sent(seq(|convs|, j requires 0 <= j < |convs| =>
                 if convs[j].id == activeId.value
                 then convs[j].(messages := SortMessages(convs[j].messages + [optimistic]),
                               lastMessage := text, lastMessageTime := later)
                 else convs[j]),
               convs[i].contactPhone)
  }

  /**
   * A send touches only the active conversation: one agent message in state
   * "sent" joins its sorted thread and its cached last message becomes the
   * text; unread, name and status stay; every other conversation is unchanged.
   */
  lemma SendEffect(convs: seq<Conversation>, activeId: Option<string>, configured: bool,
                   text: string, stamp: nat, now: int, later: int)
    requires HandleSend(convs, activeId, configured, text, stamp, now, later).Sent?
    ensures var r := HandleSend(convs, activeId, configured, text, stamp, now, later).conversations;
            var opt := OptimisticMessage(text, stamp, now);
            && opt.senderId == Agent && opt.status == "sent"
            && |r| == |convs|
            && (forall j :: 0 <= j < |convs| && !IsActive(convs[j], activeId) ==> r[j] == convs[j])
            && (forall j :: 0 <= j < |convs| && IsActive(convs[j], activeId) ==>
                  && r[j] == convs[j].(messages := r[j].messages, lastMessage := text, lastMessageTime := later)
                  && multiset(r[j].messages) == multiset(convs[j].messages) + multiset{opt}
                  && MessagesSorted(r[j].messages))
  {
  }

  /** A send keeps digit phones unique: no conversation's phone changes. */
  lemma SendKeepsUniqueKeys(convs: seq<Conversation>, activeId: Option<string>, configured: bool,
                            text: string, stamp: nat, now: int, later: int)
    requires UniqueKeys(convs)
    requires HandleSend(convs, activeId, configured, text, stamp, now, later).Sent?
    ensures UniqueKeys(HandleSend(convs, activeId, configured, text, stamp, now, later).conversations)
  {
    var r := HandleSend(convs, activeId, configured, text, stamp, now, later).conversations;
    SendEffect(convs, activeId, configured, text, stamp, now, later);
    forall i, j | 0 <= i < j < |r| ensures Key(r[i]) != Key(r[j]) {
      assert Key(r[i]) == Key(convs[i]) && Key(r[j]) == Key(convs[j]);
    }
  }

  /** With conversation ids unique, a send adds exactly one message in total. */
  lemma SendMessageCount(convs: seq<Conversation>, activeId: Option<string>, configured: bool,
                         text: string, stamp: nat, now: int, later: int)
    requires Sorting.UniqueBy(convs, (c: Conversation) => c.id)
    requires HandleSend(convs, activeId, configured, text, stamp, now, later).Sent?
    ensures Tally.SumOf(HandleSend(convs, activeId, configured, text, stamp, now, later).conversations, MessageCount) ==
            Tally.SumOf(convs, MessageCount) + 1
  {
    var r := HandleSend(convs, activeId, configured, text, stamp, now, later).conversations;
    var i := FindById(convs, activeId.value).value;
    SendEffect(convs, activeId, configured, text, stamp, now, later);
    assert r == convs[i := r[i]] by {
      forall j | 0 <= j < |convs| && j != i ensures r[j] == convs[j] {
        assert convs[j].id != convs[i].id;
      }
    }
    assert |r[i].messages| == |convs[i].messages| + 1 by {
      assert |multiset(r[i].messages)| == |multiset(convs[i].messages)| + 1;
    }
    Tally.SumOfUpdate(convs, i, r[i], MessageCount);
  }

  // ---------------------------------------------------------------- wiring

  /** The INSERT listener feeding `handleNewRealtimeMessage`. */
  function DeliverInsert(convs: seq<Conversation>, row: Option<MessageRow>, activeId: Option<string>): seq<Conversation> {
    match Socket.Forward(row)
    case None => convs
    case Some(e) => HandleInsert(convs, e.msg, e.phone, e.contactName, activeId)
  }

  /** The UPDATE listener feeding `handleMessageUpdate`. */
  function DeliverUpdate(convs: seq<Conversation>, row: Option<MessageRow>): seq<Conversation> {
    match Socket.Forward(row)
    case None => convs
    case Some(e) => HandleUpdate(convs, e.msg, e.phone)
  }

  /** A missing row or a row without a phone reaches neither handler. */
  lemma PhonelessRowIgnored(convs: seq<Conversation>, row: Option<MessageRow>, activeId: Option<string>)
    requires row.None? || !Truthy(row.value.phone)
    ensures DeliverInsert(convs, row, activeId) == convs
    ensures DeliverUpdate(convs, row) == convs
  {
  }

  /** A row the feed delivers twice is applied once. */
  lemma DeliverInsertIdempotent(convs: seq<Conversation>, row: Option<MessageRow>, activeId: Option<string>)
    requires UniqueKeys(convs)
    ensures DeliverInsert(DeliverInsert(convs, row, activeId), row, activeId) == DeliverInsert(convs, row, activeId)
  {
    match Socket.Forward(row)
    case None =>
    case Some(e) => InsertIdempotent(convs, e.msg, e.phone, e.contactName, activeId);
  }

  /** In a list with unique digit phones, the conversation of a key is the one `findIndex` returns. */
  lemma FindUnique(cs: seq<Conversation>, c: Conversation)
    requires UniqueKeys(cs) && c in cs
    ensures FindByKey(cs, Key(c)).Some? && cs[FindByKey(cs, Key(c)).value] == c
  {
    var j :| 0 <= j < |cs| && cs[j] == c;
    var i := FindByKey(cs, Key(c)).value;
    assert i == j;
  }

  /** A message some conversation of the list holds is a repeat for that conversation's phone. */
  lemma HeldMessageIsDuplicate(cs: seq<Conversation>, c: Conversation, m: Message, phone: string)
    requires UniqueKeys(cs) && c in cs && m in c.messages && Key(c) == Digits(phone)
    ensures IsDuplicate(cs, m, phone)
  {
    FindUnique(cs, c);
    var j :| 0 <= j < |c.messages| && c.messages[j] == m;
  }

  /**
   * A row that came with the history and is delivered again by the feed,
   * under a non-empty id, is recognised as a duplicate: the list stays as
   * loaded.
   */
  lemma HistoryRowRedelivered(rows: seq<MessageRow>, fallbackIds: seq<string>, prevActive: Option<string>,
                              i: int, activeId: Option<string>)
    requires |fallbackIds| == |rows|
    requires 0 <= i < |rows| && Truthy(rows[i].phone) && rows[i].id != ""
    ensures var cs := History.LoadHistorySpec(rows, fallbackIds, prevActive).conversations;
            DeliverInsert(cs, Some(rows[i]), activeId) == cs
  {
    var cs := History.LoadHistorySpec(rows, fallbackIds, prevActive).conversations;
    History.LoadHistoryGrouping(rows, fallbackIds, prevActive);
    var c :| c in cs && Key(c) == Digits(rows[i].phone.value) &&
             History.MapHistoryRow(rows[i], fallbackIds[i]) in c.messages;
    History.RealtimeAgreesWithHistory(rows[i], fallbackIds[i]);
    var e := Socket.Forward(Some(rows[i])).value;
    HeldMessageIsDuplicate(cs, c, e.msg, e.phone);
    InsertDuplicate(cs, e.msg, e.phone, e.contactName, activeId);
  }
}
