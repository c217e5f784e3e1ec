/**
 * The two orders App.tsx imposes.
 *
 * `sortMessages`: messages ordered by their effective instant, the
 * raw `createdAtRaw` when present and otherwise `timestamp`, ties broken by
 * `a.id.localeCompare(b.id, undefined, { numeric: true })`.
 *
 * The numeric-aware comparison is modelled by cutting an id into maximal digit
 * runs, each read as one number, and single other characters; the token lists
 * are compared lexicographically, a number coming before a character.
 */
module Ordering {
  import opened Wrappers
  import opened Text
  import opened Types
  import Sorting

  datatype Token = Num(value: nat) | Chr(c: char)

  function DigitValue(c: char): (n: nat)
    requires IsDigit(c)
    ensures n < 10
  {
    c as int - '0' as int
  }

  /** The number a string of digits denotes. */
  function ValueOf(d: string): nat
    requires AllDigits(d)
  {
    if d == [] then 0 else ValueOf(d[..|d| - 1]) * 10 + DigitValue(d[|d| - 1])
  }

  /** The length of the run of digits at the front of `s`. */
  function RunLength(s: string): (k: nat)
    ensures k <= |s|
    ensures forall i :: 0 <= i < k ==> IsDigit(s[i])
    ensures k < |s| ==> !IsDigit(s[k])
  {
    if s == [] || !IsDigit(s[0]) then 0 else 1 + RunLength(s[1..])
  }

  function Tokenize(s: string): seq<Token>
    decreases |s|
  {
    if s == [] then []
    else if IsDigit(s[0]) then
      var k := RunLength(s);
      [Num(ValueOf(s[..k]))] + Tokenize(s[k..])
    else [Chr(s[0])] + Tokenize(s[1..])
  }

  predicate TokenLt(a: Token, b: Token) {
    match (a, b)
    case (Num(m), Num(n)) => m < n
    case (Num(_), Chr(_)) => true
    case (Chr(_), Num(_)) => false
    case (Chr(c), Chr(d)) => c < d
  }

  lemma TokenLtIsStrict()
    ensures Sorting.StrictTotal(TokenLt)
  {
  }

  /** Numeric-aware id order: `a` does not compare after `b`, over the tokens above. */
  predicate IdLe(a: string, b: string) {
    Sorting.LexLe(Tokenize(a), Tokenize(b), TokenLt)
  }

  /** The instant a message is ordered by. */
  function EffectiveTime(m: Message): (t: int)
    ensures m.createdAtRaw.Some? ==> t == m.createdAtRaw.value
    ensures m.createdAtRaw.None? ==> t == m.timestamp
  {
    match m.createdAtRaw
    case Some(raw) => raw
    case None => m.timestamp
  }

  /** The comparator of `sortMessages` does not put `b` strictly before `a`. */
  predicate MessageLe(a: Message, b: Message) {
    EffectiveTime(a) < EffectiveTime(b) || (EffectiveTime(a) == EffectiveTime(b) && IdLe(a.id, b.id))
  }

  lemma MessageLeIsTotalPreorder()
    ensures Sorting.TotalPreorder(MessageLe)
  {
    TokenLtIsStrict();
    forall a, b ensures MessageLe(a, b) || MessageLe(b, a) {
      Sorting.LexTotal(Tokenize(a.id), Tokenize(b.id), TokenLt);
    }
    forall a, b, c | MessageLe(a, b) && MessageLe(b, c) ensures MessageLe(a, c) {
      if EffectiveTime(a) == EffectiveTime(b) == EffectiveTime(c) {
        Sorting.LexTransitive(Tokenize(a.id), Tokenize(b.id), Tokenize(c.id), TokenLt);
      }
    }
  }

  /** `sortMessages`: a stable sort under `MessageLe`. */
  function SortMessages(ms: seq<Message>): (r: seq<Message>)
    ensures multiset(r) == multiset(ms)
    ensures Sorting.SortedBy(r, MessageLe)
  {
    MessageLeIsTotalPreorder();
    Sorting.SortSorted(ms, MessageLe);
    Sorting.Sort(ms, MessageLe)
  }

  predicate MessagesSorted(ms: seq<Message>) {
    Sorting.SortedBy(ms, MessageLe)
  }

  /** Re-sorting messages that are already in order leaves them as they are. */
  lemma SortMessagesOfSorted(ms: seq<Message>)
    requires MessagesSorted(ms)
    ensures SortMessages(ms) == ms
  {
    Sorting.SortOfSorted(ms, MessageLe);
  }

  /** The result is ordered by effective instant, ties by numeric-aware id. */
  lemma SortMessagesOrder(ms: seq<Message>, i: int, j: int)
    requires 0 <= i < j < |ms|
    ensures var r := SortMessages(ms);
            EffectiveTime(r[i]) < EffectiveTime(r[j]) ||
            (EffectiveTime(r[i]) == EffectiveTime(r[j]) && IdLe(r[i].id, r[j].id))
  {
  }

  /** A message later than every message of a thread is sorted to its end. */
  lemma LatestSortsLast(ms: seq<Message>, m: Message)
    requires forall x :: x in ms ==> EffectiveTime(x) < EffectiveTime(m)
    ensures var r := SortMessages(ms + [m]);
            |r| == |ms| + 1 && r[|ms|] == m
  {
    var r := SortMessages(ms + [m]);
    var n := |ms|;
    assert |r| == |multiset(r)| == n + 1;
    assert r[n] in multiset(ms + [m]);
    assert m in multiset(r);
    var k :| 0 <= k < |r| && r[k] == m;
    if r[n] != m {
      SortMessagesOrder(ms + [m], k, n);
      assert false;
    }
  }

  lemma TokenizeTwo()
    ensures Tokenize("2") == [Num(2)]
  {
    assert "2"[..1] == "2";
    assert "2"[1..] == "";
    assert RunLength("2"[1..]) == 0;
    assert ValueOf("2"[..0]) == 0;
  }

  lemma TokenizeTen()
    ensures Tokenize("10") == [Num(10)]
  {
    assert "10"[1..] == "0";
    assert "0"[1..] == "";
    assert RunLength("10") == 2;
    assert "10"[..2] == "10";
    assert "10"[..1] == "1";
    assert "10"[..0] == "";
    assert ValueOf("1") == 1 by { assert "1"[..0] == ""; }
    assert ValueOf("10") == 10;
    assert "10"[2..] == "";
  }

  /** With equal instants, id "2" sorts before id "10". */
  lemma TwoBeforeTen(a: Message, b: Message)
    requires EffectiveTime(a) == EffectiveTime(b)
    requires a.id == "2" && b.id == "10"
    ensures MessageLe(a, b) && !MessageLe(b, a)
  {
    TokenizeTwo();
    TokenizeTen();
  }

  /** The comparator `b.lastMessageTime - a.lastMessageTime`: most recent first. */
  predicate RecencyLe(a: Conversation, b: Conversation) {
    a.lastMessageTime >= b.lastMessageTime
  }

  lemma RecencyLeIsTotalPreorder()
    ensures Sorting.TotalPreorder(RecencyLe)
  {
  }

  /** The re-sort of the conversation list: stable, descending by `lastMessageTime`. */
  function SortByRecency(cs: seq<Conversation>): (r: seq<Conversation>)
    ensures multiset(r) == multiset(cs)
    ensures forall i, j :: 0 <= i < j < |r| ==> r[i].lastMessageTime >= r[j].lastMessageTime
  {
    RecencyLeIsTotalPreorder();
    Sorting.SortSorted(cs, RecencyLe);
    Sorting.Sort(cs, RecencyLe)
  }

  /** Re-sorting keeps the digit phones of the list distinct. */
  lemma SortByRecencyUnique(cs: seq<Conversation>)
    requires Sorting.UniqueBy(cs, Key)
    ensures Sorting.UniqueBy(SortByRecency(cs), Key)
  {
    Sorting.SortUniqueBy(cs, RecencyLe, Key);
  }
}
