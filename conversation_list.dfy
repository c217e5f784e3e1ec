/**
 * components/ConversationList.tsx: the list of live conversations, narrowed
 * by a search term and a status filter, and the decorations of each item.
 */
module ConversationList {
  import opened Wrappers
  import opened Text
  import opened Types
  import Utils
  import Tally
  import Ordering
  import Reconciler

  /** The three tabs: every conversation, only the active ones, only the waiting ones. */
  datatype StatusFilter = All | OnlyActive | OnlyWaiting

  /** The name, lower-cased, contains the lower-cased term, or the raw phone the raw term. */
  predicate MatchesSearch(c: Conversation, term: string) {
    Contains(Lower(c.contactName), Lower(term)) || Contains(c.contactPhone, term)
  }

  predicate MatchesFilter(c: Conversation, filter: StatusFilter) {
    match filter
    case All => true
    case OnlyActive => c.status == Active
    case OnlyWaiting => c.status == Waiting
  }

  predicate Keeps(c: Conversation, term: string, filter: StatusFilter) {
    MatchesSearch(c, term) && MatchesFilter(c, filter)
  }

  /** `filtered`: the conversations that match both the search and the tab, in list order. */
  function Filtered(conversations: seq<Conversation>, term: string, filter: StatusFilter): (r: seq<Conversation>)
    ensures forall c :: c in r ==> c in conversations && Keeps(c, term, filter)
    ensures forall c :: c in conversations && Keeps(c, term, filter) ==> c in r
    ensures Tally.Subsequence(r, conversations)
    ensures forall x :: multiset(r)[x] == if Keeps(x, term, filter) then multiset(conversations)[x] else 0
  {
    Tally.FilterMultiset(conversations, (c: Conversation) => Keeps(c, term, filter));
    Tally.FilterSubsequence(conversations, (c: Conversation) => Keeps(c, term, filter));
    Tally.Filter(conversations, (c: Conversation) => Keeps(c, term, filter))
  }

  /** The "all" tab with an empty search shows the whole list. */
  lemma FilteredEverything(conversations: seq<Conversation>)
    ensures Filtered(conversations, "", All) == conversations
  {
    forall c | c in conversations ensures Keeps(c, "", All) {
      ContainsEmpty(c.contactPhone);
    }
    Tally.FilterAll(conversations, (c: Conversation) => Keeps(c, "", All));
  }

  /** Under the "active" and "waiting" tabs every conversation shown has that status. */
  lemma FilteredStatus(conversations: seq<Conversation>, term: string)
    ensures forall c :: c in Filtered(conversations, term, OnlyActive) ==> c.status == Active
    ensures forall c :: c in Filtered(conversations, term, OnlyWaiting) ==> c.status == Waiting
    ensures forall c :: c in conversations && c.status == Finished ==>
              c !in Filtered(conversations, term, OnlyActive) && c !in Filtered(conversations, term, OnlyWaiting)
  {
  }

  /** A phone typed in the search finds its own conversation, under any name. */
  lemma PhoneFindsConversation(conversations: seq<Conversation>, c: Conversation)
    requires c in conversations
    ensures c in Filtered(conversations, c.contactPhone, All)
  {
    assert OccursAt(c.contactPhone, c.contactPhone, 0);
  }

  /** The formatted phone under the name: shown only when name and phone differ in their digits. */
  predicate ShowSubLabel(c: Conversation) {
    Digits(c.contactName) != Digits(c.contactPhone)
  }

  /** A conversation still named by its formatted phone shows no second phone line. */
  lemma GenericNameHidesSubLabel(c: Conversation)
    requires HasGenericName(c)
    ensures !ShowSubLabel(c)
  {
    Utils.FormatPhoneKeepsDigits(c.contactPhone);
  }

  /** A real name (no digits) over a phone with digits shows the phone line. */
  lemma RealNameShowsSubLabel(c: Conversation)
    requires forall i :: 0 <= i < |c.contactName| ==> !IsDigit(c.contactName[i])
    requires exists i :: 0 <= i < |c.contactPhone| && IsDigit(c.contactPhone[i])
    ensures ShowSubLabel(c)
  {
    DigitsOfNoDigits(c.contactName);
    var i :| 0 <= i < |c.contactPhone| && IsDigit(c.contactPhone[i]);
    DigitsKeepsDigit(c.contactPhone, i);
  }

  /** A text without digits has no digits to keep. */
  lemma {:induction false} DigitsOfNoDigits(s: string)
    requires forall i :: 0 <= i < |s| ==> !IsDigit(s[i])
    ensures Digits(s) == ""
  {
    if s != [] {
      DigitsOfNoDigits(s[1..]);
    }
  }

  /** A text with a digit keeps at least one. */
  lemma {:induction false} DigitsKeepsDigit(s: string, i: nat)
    requires i < |s| && IsDigit(s[i])
    ensures Digits(s) != ""
  {
    assert s == s[..i] + ([s[i]] + s[i + 1..]);
    DigitsConcat(s[..i], [s[i]] + s[i + 1..]);
    assert ([s[i]] + s[i + 1..])[1..] == s[i + 1..];
    assert Digits([s[i]] + s[i + 1..]) == [s[i]] + Digits(s[i + 1..]);
  }

  /** "Você:" before the preview: the thread's last message is the agent's (none for an empty thread). */
  predicate ShowYouPrefix(c: Conversation) {
    |c.messages| > 0 && c.messages[|c.messages| - 1].senderId == Agent
  }

  /** The unread badge. */
  predicate ShowUnreadBadge(c: Conversation) {
    c.unreadCount > 0
  }

  /**
   * Right after the agent sends, the active conversation shows "Você:", as
   * long as the clock is later than every message already in its thread: the
   * optimistic message then sorts to the end of the thread.
   */
  lemma SendShowsYouPrefix(convs: seq<Conversation>, activeId: Option<string>, configured: bool,
                           text: string, stamp: nat, now: int, later: int, j: int)
    requires Reconciler.HandleSend(convs, activeId, configured, text, stamp, now, later).Sent?
    requires 0 <= j < |convs| && Reconciler.IsActive(convs[j], activeId)
    requires forall m :: m in convs[j].messages ==> Ordering.EffectiveTime(m) < now
    ensures ShowYouPrefix(Reconciler.HandleSend(convs, activeId, configured, text, stamp, now, later).conversations[j])
  {
    var opt := Reconciler.OptimisticMessage(text, stamp, now);
    var r := Reconciler.HandleSend(convs, activeId, configured, text, stamp, now, later).conversations;
    assert r[j].messages == Ordering.SortMessages(convs[j].messages + [opt]);
    Ordering.LatestSortsLast(convs[j].messages, opt);
  }

  /**
   * After a fresh message arrives, the conversation holding it shows the
   * unread badge: a new conversation always, a known one exactly when it is
   * not the active one.
   */
  lemma InsertUnreadBadge(convs: seq<Conversation>, msg: Message, phone: string,
                          contactName: Option<string>, activeId: Option<string>)
    requires !Reconciler.IsDuplicate(convs, msg, phone)
    ensures var r := Reconciler.HandleInsert(convs, msg, phone, contactName, activeId);
            exists c :: c in r && Key(c) == Digits(phone) && Reconciler.HasId(c.messages, msg.id) &&
              (Reconciler.FindByKey(convs, Digits(phone)).None? ==> ShowUnreadBadge(c)) &&
              (Reconciler.FindByKey(convs, Digits(phone)).Some? ==> (ShowUnreadBadge(c) <==> !Reconciler.IsActive(c, activeId)))
  {
    var r := Reconciler.HandleInsert(convs, msg, phone, contactName, activeId);
    match Reconciler.FindByKey(convs, Digits(phone))
    case Some(i) =>
      var u := Reconciler.Appended(convs[i], msg, contactName, activeId);
      Reconciler.AppendedShape(convs[i], msg, contactName, activeId);
      Reconciler.AppendedHasId(convs[i], msg, contactName, activeId);
      assert u in multiset(convs[i := u]);
      assert u in r;
    case None =>
      assert r[0].messages[0] == msg;
      assert r[0] in r;
  }
}
