/**
 * components/Dashboard.tsx: the marketing statistics. Contacts and
 * conversations are filtered by a date range; the contacts are counted by
 * funnel stage (with a keyword priority of its own, different from the
 * board's) and by segment, the messages by hour of the day.
 */
module Dashboard {
  import opened Wrappers
  import opened Text
  import opened Types
  import Sorting
  import Tally
  import CrmBoard

  // ---------------------------------------------------------------- filteredData

  /** `filteredData`: contacts by creation instant, conversations by the instant of their last message. */
  function FilteredContacts(contacts: seq<Contact>, start: Option<int>, end: Option<int>): (r: seq<Contact>)
    ensures forall c :: c in r ==> c in contacts && CrmBoard.FilterByDate(c.createdAt, start, end)
    ensures forall c :: c in contacts && CrmBoard.FilterByDate(c.createdAt, start, end) ==> c in r
    ensures Tally.Subsequence(r, contacts)
    ensures forall x :: multiset(r)[x] == if CrmBoard.FilterByDate(x.createdAt, start, end) then multiset(contacts)[x] else 0
  {
    Tally.FilterMultiset(contacts, (c: Contact) => CrmBoard.FilterByDate(c.createdAt, start, end));
    Tally.FilterSubsequence(contacts, (c: Contact) => CrmBoard.FilterByDate(c.createdAt, start, end));
    Tally.Filter(contacts, (c: Contact) => CrmBoard.FilterByDate(c.createdAt, start, end))
  }

  function FilteredConversations(conversations: seq<Conversation>, start: Option<int>, end: Option<int>): (r: seq<Conversation>)
    ensures forall c :: c in r ==> c in conversations && CrmBoard.FilterByDate(c.lastMessageTime, start, end)
    ensures forall c :: c in conversations && CrmBoard.FilterByDate(c.lastMessageTime, start, end) ==> c in r
    ensures Tally.Subsequence(r, conversations)
    ensures forall x :: multiset(r)[x] == if CrmBoard.FilterByDate(x.lastMessageTime, start, end) then multiset(conversations)[x] else 0
  {
    Tally.FilterMultiset(conversations, (c: Conversation) => CrmBoard.FilterByDate(c.lastMessageTime, start, end));
    Tally.FilterSubsequence(conversations, (c: Conversation) => CrmBoard.FilterByDate(c.lastMessageTime, start, end));
    Tally.Filter(conversations, (c: Conversation) => CrmBoard.FilterByDate(c.lastMessageTime, start, end))
  }

  /** With no dates, the dashboard sees every contact and every conversation. */
  lemma NoDatesKeepsAll(contacts: seq<Contact>, conversations: seq<Conversation>)
    ensures FilteredContacts(contacts, None, None) == contacts
    ensures FilteredConversations(conversations, None, None) == conversations
  {
    Tally.FilterAll(contacts, (c: Contact) => CrmBoard.FilterByDate(c.createdAt, None, None));
    Tally.FilterAll(conversations, (c: Conversation) => CrmBoard.FilterByDate(c.lastMessageTime, None, None));
  }

  // ---------------------------------------------------------------- funnel stages

  /** The board's loss keywords, plus "frio". */
  const DescarteKeywords: seq<string> := CrmBoard.FrioKeywords + ["frio"]

  datatype Stage = Descarte | Mql | Triagem | Novo

  /** The dashboard's priority: loss first, then success, then in progress. */
  function StageOf(statusLower: string): Stage {
    if CrmBoard.MentionsAny(statusLower, DescarteKeywords) then Descarte
    else if CrmBoard.MentionsAny(statusLower, CrmBoard.MqlKeywords) then Mql
    else if CrmBoard.MentionsAny(statusLower, CrmBoard.TriagemKeywords) then Triagem
    else Novo
  }

  function ContactStage(c: Contact): Stage {
    StageOf(CrmBoard.StatusText(c))
  }

  /** Each stage, characterised by the keyword groups it needs and the ones it must miss. */
  lemma StagePriority(s: string)
    ensures StageOf(s) == Descarte <==> CrmBoard.MentionsAny(s, DescarteKeywords)
    ensures StageOf(s) == Mql <==>
              !CrmBoard.MentionsAny(s, DescarteKeywords) && CrmBoard.MentionsAny(s, CrmBoard.MqlKeywords)
    ensures StageOf(s) == Triagem <==>
              !CrmBoard.MentionsAny(s, DescarteKeywords) && !CrmBoard.MentionsAny(s, CrmBoard.MqlKeywords) &&
              CrmBoard.MentionsAny(s, CrmBoard.TriagemKeywords)
  {
  }

  /** Loss is tested first here, so "desqualificado" is a discard (the board calls it an MQL). */
  lemma DesqualificadoIsDescarte(s: string)
    requires Contains(s, "desqualificado")
    ensures StageOf(s) == Descarte
    ensures CrmBoard.Classify(s) == CrmBoard.Mql
  {
    assert DescarteKeywords[0] == "desqualificado";
    CrmBoard.DesqualificadoIsMql(s);
  }

  /** A status mentioning "frio" is a discard on the dashboard. */
  lemma FrioIsDescarte(s: string)
    requires Contains(s, "frio")
    ensures StageOf(s) == Descarte
  {
    assert DescarteKeywords[6] == "frio";
  }

  /** The three stage counters together never exceed the number of leads. */
  lemma StageCountsBounded(contacts: seq<Contact>)
    ensures |Tally.Select(contacts, ContactStage, Mql)| + |Tally.Select(contacts, ContactStage, Descarte)| +
            |Tally.Select(contacts, ContactStage, Triagem)| <= |contacts|
  {
    var ks: seq<Stage> := [Descarte, Mql, Triagem, Novo];
    forall c | c in contacts ensures ContactStage(c) in ks {
      assert ContactStage(c) == ks[0] || ContactStage(c) == ks[1] || ContactStage(c) == ks[2] || ContactStage(c) == ks[3];
    }
    assert Tally.Distinct(ks);
    Tally.SumCountsCovers(contacts, ContactStage, ks);
    assert ks[1..][1..][1..][1..] == [];
  }

  // ---------------------------------------------------------------- segments

  const Unidentified: string := "Não Identificado"

  /** The segment, or "Não Identificado" when it is falsy; no cleaning of "EMPTY" or "NULL" here. */
  function SegmentLabel(c: Contact): (r: string)
    ensures Truthy(c.segmento) ==> r == c.segmento.value
    ensures !Truthy(c.segmento) ==> r == Unidentified
  {
    OrElse(c.segmento, Unidentified)
  }

  /** The placeholder the board hides is a segment of its own on the dashboard. */
  lemma PlaceholderSegmentCounted(c: Contact)
    requires c.segmento == Some("EMPTY")
    ensures SegmentLabel(c) == "EMPTY" && CrmBoard.CleanData(c.segmento) == None
  {
  }

  const Colors: seq<string> := ["#1440FF", "#FFA814", "#00C49F", "#FF8042", "#8A92B7", "#FF1440"]

  datatype SegmentEntry = SegmentEntry(name: string, value: nat, color: string)

  /** The entries of the segment map in insertion order, the `index`-th coloured `Colors[index % 6]`. */
  function ChartEntries(order: seq<string>, counts: map<string, nat>, index: nat): (r: seq<SegmentEntry>)
    requires forall k :: k in order ==> k in counts
    ensures |r| == |order|
    ensures forall i :: 0 <= i < |r| ==>
              r[i] == SegmentEntry(order[i], counts[order[i]], Colors[(index + i) % |Colors|])
    decreases |order|
  {
    if order == [] then []
    else
      assert order[0] in order;
      [SegmentEntry(order[0], counts[order[0]], Colors[index % |Colors|])] + ChartEntries(order[1..], counts, index + 1)
  }

  predicate ValueGe(a: SegmentEntry, b: SegmentEntry) {
    a.value >= b.value
  }

  lemma ValueGeIsTotalPreorder()
    ensures Sorting.TotalPreorder(ValueGe)
  {
  }

  function EntryValue(e: SegmentEntry): nat {
    e.value
  }

  function EntryName(e: SegmentEntry): string {
    e.name
  }

  /** The counter of contacts per segment label. */
  function SegmentCounter(contacts: seq<Contact>): (r: Tally.Counter<string>)
    ensures forall k :: k in r.order ==> k in r.counts
  {
    Tally.CountAllSpec(contacts, SegmentLabel);
    Tally.CountAll(contacts, SegmentLabel)
  }

  /** `segmentChartData`: the segment entries, sorted by descending count (stable). */
  function SegmentChart(contacts: seq<Contact>): seq<SegmentEntry> {
    var c := SegmentCounter(contacts);
    Sorting.Sort(ChartEntries(c.order, c.counts, 0), ValueGe)
  }

  /** The chart is sorted by descending count. */
  lemma SegmentChartSorted(contacts: seq<Contact>)
    ensures var r := SegmentChart(contacts);
            forall i, j :: 0 <= i < j < |r| ==> r[i].value >= r[j].value
  {
    var c := SegmentCounter(contacts);
    ValueGeIsTotalPreorder();
    Sorting.SortSorted(ChartEntries(c.order, c.counts, 0), ValueGe);
  }

  /** The sum of the counts of entries built from a counter is its total over the keys. */
  lemma {:induction false} ChartEntriesSum(contacts: seq<Contact>, order: seq<string>, counts: map<string, nat>, index: nat)
    requires forall k :: k in order ==> k in counts && counts[k] == |Tally.Select(contacts, SegmentLabel, k)|
    ensures Tally.SumOf(ChartEntries(order, counts, index), EntryValue) == Tally.SumCounts(contacts, SegmentLabel, order)
    decreases |order|
  {
    if order != [] {
      assert order[0] in order;
      ChartEntriesSum(contacts, order[1..], counts, index + 1);
      assert ChartEntries(order, counts, index)[1..] == ChartEntries(order[1..], counts, index + 1);
    }
  }

  /** The chart's counts add up to the number of filtered contacts. */
  lemma SegmentChartSum(contacts: seq<Contact>)
    ensures Tally.SumOf(SegmentChart(contacts), EntryValue) == |contacts|
  {
    var c := SegmentCounter(contacts);
    Tally.CountAllSpec(contacts, SegmentLabel);
    var entries := ChartEntries(c.order, c.counts, 0);
    ChartEntriesSum(contacts, c.order, c.counts, 0);
    Tally.SumOfPermutation(Sorting.Sort(entries, ValueGe), entries, EntryValue);
    Tally.CountAllTotal(contacts, SegmentLabel);
  }

  /** The chart has one entry per segment label: no name twice. */
  lemma SegmentChartUnique(contacts: seq<Contact>)
    ensures Sorting.UniqueBy(SegmentChart(contacts), EntryName)
  {
    var counter := SegmentCounter(contacts);
    Tally.CountAllSpec(contacts, SegmentLabel);
    var entries := ChartEntries(counter.order, counter.counts, 0);
    assert Sorting.UniqueBy(entries, EntryName) by {
      forall i, j | 0 <= i < j < |entries| ensures EntryName(entries[i]) != EntryName(entries[j]) {
        assert entries[i].name == counter.order[i] && entries[j].name == counter.order[j];
      }
    }
    Sorting.SortUniqueBy(entries, ValueGe, EntryName);
  }

  /** Every entry of the chart counts the contacts with its label, and counts at least one. */
  lemma SegmentChartValues(contacts: seq<Contact>, e: SegmentEntry)
    requires e in SegmentChart(contacts)
    ensures e.value == |Tally.Select(contacts, SegmentLabel, e.name)| && e.value > 0
  {
    var counter := SegmentCounter(contacts);
    Tally.CountAllSpec(contacts, SegmentLabel);
    var entries := ChartEntries(counter.order, counter.counts, 0);
    Sorting.SortMembers(entries, ValueGe, e);
    var i :| 0 <= i < |entries| && entries[i] == e;
    var k := counter.order[i];
    assert k in counter.order;
    assert e.name == k && e.value == counter.counts[k];
    Tally.CountAllPositive(contacts, SegmentLabel, k);
  }

  /** Every label of a filtered contact has an entry in the chart. */
  lemma SegmentChartCovers(contacts: seq<Contact>, c: Contact)
    requires c in contacts
    ensures exists e :: e in SegmentChart(contacts) && e.name == SegmentLabel(c)
  {
    var counter := SegmentCounter(contacts);
    Tally.CountAllSpec(contacts, SegmentLabel);
    var entries := ChartEntries(counter.order, counter.counts, 0);
    Tally.SelectMembers(contacts, SegmentLabel, SegmentLabel(c), c);
    assert SegmentLabel(c) in counter.counts;
    var i :| 0 <= i < |counter.order| && counter.order[i] == SegmentLabel(c);
    Sorting.SortMembers(entries, ValueGe, entries[i]);
    assert entries[i] in SegmentChart(contacts) && entries[i].name == SegmentLabel(c);
  }

  /** The "Segmentos Ativos" KPI: the chart entries other than "Não Identificado". */
  function ActiveSegments(chart: seq<SegmentEntry>): (r: nat)
    ensures r <= |chart|
  {
    |Tally.Filter(chart, (e: SegmentEntry) => e.name != Unidentified)|
  }

  /** In a chart without repeated names, the KPI leaves out at most the one "Não Identificado" entry. */
  lemma {:induction false} ActiveSegmentsOfUnique(chart: seq<SegmentEntry>)
    requires Sorting.UniqueBy(chart, EntryName)
    ensures ActiveSegments(chart) + (if exists e :: e in chart && e.name == Unidentified then 1 else 0) == |chart|
  {
    if chart != [] {
      var tail := chart[1..];
      assert Sorting.UniqueBy(tail, EntryName) by {
        forall i, j | 0 <= i < j < |tail| ensures EntryName(tail[i]) != EntryName(tail[j]) {
          assert tail[i] == chart[i + 1] && tail[j] == chart[j + 1];
        }
      }
      ActiveSegmentsOfUnique(tail);
      if chart[0].name == Unidentified {
        forall e | e in tail ensures e.name != Unidentified {
          var j :| 0 <= j < |tail| && tail[j] == e;
          assert chart[j + 1] == e;
        }
        assert ActiveSegments(chart) == ActiveSegments(tail);
      } else {
        assert ActiveSegments(chart) == 1 + ActiveSegments(tail);
        assert (exists e :: e in chart && e.name == Unidentified) <==> (exists e :: e in tail && e.name == Unidentified) by {
          forall e | e in chart && e != chart[0] ensures e in tail {
            var j :| 0 <= j < |chart| && chart[j] == e;
            assert tail[j - 1] == e;
          }
        }
      }
    }
  }

  /**
   * The active-segments KPI is the number of chart entries, less one when
   * some filtered contact is labelled "Não Identificado" (a falsy segment, or
   * that very text).
   */
  lemma ActiveSegmentsCount(contacts: seq<Contact>)
    ensures var chart := SegmentChart(contacts);
            ActiveSegments(chart) + (if exists c :: c in contacts && SegmentLabel(c) == Unidentified then 1 else 0) == |chart|
  {
    var chart := SegmentChart(contacts);
    SegmentChartUnique(contacts);
    ActiveSegmentsOfUnique(chart);
    var hasEntry := exists e :: e in chart && e.name == Unidentified;
    var hasLabel := exists c :: c in contacts && SegmentLabel(c) == Unidentified;
    assert hasEntry <==> hasLabel by {
      if hasEntry {
        var e :| e in chart && e.name == Unidentified;
        SegmentChartValues(contacts, e);
        var x := Tally.Select(contacts, SegmentLabel, e.name)[0];
        Tally.SelectMembers(contacts, SegmentLabel, e.name, x);
      }
      if hasLabel {
        var c :| c in contacts && SegmentLabel(c) == Unidentified;
        SegmentChartCovers(contacts, c);
      }
    }
  }

  // ---------------------------------------------------------------- messages

  /** Every message of the conversations, conversation by conversation. */
  function AllMessages(conversations: seq<Conversation>): seq<Message> {
    if conversations == [] then []
    else AllMessages(conversations[..|conversations| - 1]) + conversations[|conversations| - 1].messages
  }

  /** There are as many messages as the conversations' message counts add up to. */
  lemma {:induction false} AllMessagesCount(conversations: seq<Conversation>)
    ensures |AllMessages(conversations)| == Tally.SumOf(conversations, MessageCount)
  {
    if conversations != [] {
      var n := |conversations| - 1;
      AllMessagesCount(conversations[..n]);
      assert conversations == conversations[..n] + [conversations[n]];
      Tally.SumOfConcat(conversations[..n], [conversations[n]], MessageCount);
      assert [conversations[n]][1..] == [];
    }
  }

  datatype ActivityEntry = ActivityEntry(time: string, value: nat)

  function ActivityEntries(order: seq<string>, counts: map<string, nat>): (r: seq<ActivityEntry>)
    requires forall k :: k in order ==> k in counts
    ensures |r| == |order|
    ensures forall i :: 0 <= i < |r| ==> r[i] == ActivityEntry(order[i], counts[order[i]])
  {
    if order == [] then []
    else
      assert order[0] in order;
      [ActivityEntry(order[0], counts[order[0]])] + ActivityEntries(order[1..], counts)
  }

  predicate TimeLe(a: ActivityEntry, b: ActivityEntry) {
    StrLe(a.time, b.time)
  }

  function ActivityValue(e: ActivityEntry): nat {
    e.value
  }

  /** The counter of messages per hour label; `hourLabel` renders an instant as `HHh`. */
  function HourCounter(conversations: seq<Conversation>, hourLabel: int -> string): (r: Tally.Counter<string>)
    ensures forall k :: k in r.order ==> k in r.counts
  {
    Tally.CountAllSpec(AllMessages(conversations), (m: Message) => hourLabel(m.timestamp));
    Tally.CountAll(AllMessages(conversations), (m: Message) => hourLabel(m.timestamp))
  }

  /** `activityData`: one entry per hour label, by ascending label. */
  function ActivityChart(conversations: seq<Conversation>, hourLabel: int -> string): seq<ActivityEntry> {
    var c := HourCounter(conversations, hourLabel);
    Sorting.Sort(ActivityEntries(c.order, c.counts), TimeLe)
  }

  lemma {:induction false} ActivityEntriesSum<T>(xs: seq<T>, key: T -> string, order: seq<string>, counts: map<string, nat>)
    requires forall k :: k in order ==> k in counts && counts[k] == |Tally.Select(xs, key, k)|
    ensures Tally.SumOf(ActivityEntries(order, counts), ActivityValue) == Tally.SumCounts(xs, key, order)
  {
    if order != [] {
      assert order[0] in order;
      ActivityEntriesSum(xs, key, order[1..], counts);
      assert ActivityEntries(order, counts)[1..] == ActivityEntries(order[1..], counts);
    }
  }

  /** The hour buckets add up to the message total, and are in ascending label order. */
  lemma ActivityChartSum(conversations: seq<Conversation>, hourLabel: int -> string)
    ensures Tally.SumOf(ActivityChart(conversations, hourLabel), ActivityValue) ==
            Tally.SumOf(conversations, MessageCount)
    ensures var r := ActivityChart(conversations, hourLabel);
            forall i, j :: 0 <= i < j < |r| ==> StrLe(r[i].time, r[j].time)
  {
    var all := AllMessages(conversations);
    var key := (m: Message) => hourLabel(m.timestamp);
    var c := HourCounter(conversations, hourLabel);
    Tally.CountAllSpec(all, key);
    var entries := ActivityEntries(c.order, c.counts);
    ActivityEntriesSum(all, key, c.order, c.counts);
    Tally.SumOfPermutation(Sorting.Sort(entries, TimeLe), entries, ActivityValue);
    Tally.CountAllTotal(all, key);
    AllMessagesCount(conversations);
    StrLeProperties();
    assert Sorting.TotalPreorder(TimeLe);
    Sorting.SortSorted(entries, TimeLe);
  }

  // ---------------------------------------------------------------- stats

  datatype FunnelEntry = FunnelEntry(name: string, value: nat, fill: string)

  /** The MQL share of the leads as a ratio, or none when there are no leads; the floating point is left out. */
  datatype Rate = NoLeads | Ratio(mql: nat, total: nat)

  datatype Stats = Stats(totalLeads: nat, mqlCount: nat, conversionRate: Rate, segmentChartData: seq<SegmentEntry>,
                         funnelData: seq<FunnelEntry>, activityData: seq<ActivityEntry>, totalMessages: nat)

  function Funnel(total: nat, triagem: nat, mql: nat, descarte: nat): seq<FunnelEntry> {
    [FunnelEntry("Total Leads", total, "#3b82f6"), FunnelEntry("Em Triagem", triagem, "#f59e0b"),
     FunnelEntry("MQLs (Ganho)", mql, "#10b981"), FunnelEntry("Descarte", descarte, "#ef4444")]
  }

  /** The contact loop of `stats`: the three stage counters and the segment map. */
  method CountContacts(contacts: seq<Contact>)
    returns (mqlCount: nat, descarteCount: nat, triagemCount: nat, segmentMap: Tally.Counter<string>)
    ensures mqlCount == |Tally.Select(contacts, ContactStage, Mql)|
    ensures descarteCount == |Tally.Select(contacts, ContactStage, Descarte)|
    ensures triagemCount == |Tally.Select(contacts, ContactStage, Triagem)|
    ensures segmentMap == Tally.CountAll(contacts, SegmentLabel)
  {
    mqlCount, descarteCount, triagemCount := 0, 0, 0;
    segmentMap := Tally.Counter([], map[]);
    var i := 0;
    while i < |contacts|
      invariant 0 <= i <= |contacts|
      invariant mqlCount == |Tally.Select(contacts[..i], ContactStage, Mql)|
      invariant descarteCount == |Tally.Select(contacts[..i], ContactStage, Descarte)|
      invariant triagemCount == |Tally.Select(contacts[..i], ContactStage, Triagem)|
      invariant segmentMap == Tally.CountAll(contacts[..i], SegmentLabel)
    {
      var c := contacts[i];
      assert contacts[..i + 1] == contacts[..i] + [c];
      Tally.CountAllSnoc(contacts[..i], c, SegmentLabel);
      Tally.SelectSnoc(contacts[..i], c, ContactStage, Mql);
      Tally.SelectSnoc(contacts[..i], c, ContactStage, Descarte);
      Tally.SelectSnoc(contacts[..i], c, ContactStage, Triagem);
      var seg := OrElse(c.segmento, Unidentified);
      segmentMap := Tally.Bump(segmentMap, seg);
      var statusLower := CrmBoard.StatusText(c);
      if CrmBoard.MentionsAny(statusLower, DescarteKeywords) {
        descarteCount := descarteCount + 1;
      } else if CrmBoard.MentionsAny(statusLower, CrmBoard.MqlKeywords) {
        mqlCount := mqlCount + 1;
      } else if CrmBoard.MentionsAny(statusLower, CrmBoard.TriagemKeywords) {
        triagemCount := triagemCount + 1;
      }
      i := i + 1;
    }
    assert contacts[..i] == contacts;
  }

  /** The inner `forEach` of the message loop: one conversation's messages into the hour map. */
  method CountThread(hoursMap: Tally.Counter<string>, messages: seq<Message>, hourLabel: int -> string,
                     ghost before: seq<Message>)
    returns (r: Tally.Counter<string>)
    requires hoursMap == Tally.CountAll(before, (m: Message) => hourLabel(m.timestamp))
    ensures r == Tally.CountAll(before + messages, (m: Message) => hourLabel(m.timestamp))
  {
    var key := (m: Message) => hourLabel(m.timestamp);
    r := hoursMap;
    assert before + messages[..0] == before;
    var j := 0;
    while j < |messages|
      invariant 0 <= j <= |messages|
      invariant r == Tally.CountAll(before + messages[..j], key)
    {
      var msg := messages[j];
      assert before + messages[..j + 1] == (before + messages[..j]) + [msg];
      Tally.CountAllSnoc(before + messages[..j], msg, key);
      r := Tally.Bump(r, hourLabel(msg.timestamp));
      j := j + 1;
    }
    assert messages[..j] == messages;
  }

  /** One more conversation of the prefix: its messages join the total and the list of all messages. */
  lemma MessagesPrefixStep(conversations: seq<Conversation>, i: nat)
    requires i < |conversations|
    ensures Tally.SumOf(conversations[..i + 1], MessageCount) ==
            Tally.SumOf(conversations[..i], MessageCount) + |conversations[i].messages|
    ensures AllMessages(conversations[..i + 1]) == AllMessages(conversations[..i]) + conversations[i].messages
  {
    var conv := conversations[i];
    assert conversations[..i + 1] == conversations[..i] + [conv];
    assert conversations[..i + 1][..i] == conversations[..i];
    Tally.SumOfConcat(conversations[..i], [conv], MessageCount);
    assert [conv][1..] == [];
  }

  /** The message loop of `stats`: the total and the hour map, over nested `forEach`es. */
  method CountMessages(conversations: seq<Conversation>, hourLabel: int -> string)
    returns (totalMessages: nat, hoursMap: Tally.Counter<string>)
    ensures totalMessages == Tally.SumOf(conversations, MessageCount)
    ensures hoursMap == Tally.CountAll(AllMessages(conversations), (m: Message) => hourLabel(m.timestamp))
  {
    totalMessages := 0;
    hoursMap := Tally.Counter([], map[]);
    var i := 0;
    while i < |conversations|
      invariant 0 <= i <= |conversations|
      invariant totalMessages == Tally.SumOf(conversations[..i], MessageCount)
      invariant hoursMap == Tally.CountAll(AllMessages(conversations[..i]), (m: Message) => hourLabel(m.timestamp))
    {
      var conv := conversations[i];
      MessagesPrefixStep(conversations, i);
      totalMessages := totalMessages + |conv.messages|;
      hoursMap := CountThread(hoursMap, conv.messages, hourLabel, AllMessages(conversations[..i]));
      i := i + 1;
    }
    assert conversations[..i] == conversations;
  }

  /** `stats`, over the filtered contacts and conversations. */
  method ComputeStats(contacts: seq<Contact>, conversations: seq<Conversation>, hourLabel: int -> string)
    returns (stats: Stats)
    ensures stats.totalLeads == |contacts|
    ensures stats.mqlCount == |Tally.Select(contacts, ContactStage, Mql)|
    ensures stats.conversionRate == if |contacts| > 0 then Ratio(stats.mqlCount, |contacts|) else NoLeads
    ensures stats.segmentChartData == SegmentChart(contacts)
    ensures stats.funnelData == Funnel(|contacts|, |Tally.Select(contacts, ContactStage, Triagem)|,
                                       stats.mqlCount, |Tally.Select(contacts, ContactStage, Descarte)|)
    ensures stats.activityData == ActivityChart(conversations, hourLabel)
    ensures stats.totalMessages == Tally.SumOf(conversations, MessageCount)
  {
    var mqlCount, descarteCount, triagemCount, segmentMap := CountContacts(contacts);
    assert segmentMap == SegmentCounter(contacts);
    var segmentChartData := Sorting.Sort(ChartEntries(segmentMap.order, segmentMap.counts, 0), ValueGe);
    var funnelData := Funnel(|contacts|, triagemCount, mqlCount, descarteCount);
    var totalMessages, hoursMap := CountMessages(conversations, hourLabel);
    assert hoursMap == HourCounter(conversations, hourLabel);
    var activityData := Sorting.Sort(ActivityEntries(hoursMap.order, hoursMap.counts), TimeLe);
    var conversionRate := if |contacts| > 0 then Ratio(mqlCount, |contacts|) else NoLeads;
    stats := Stats(|contacts|, mqlCount, conversionRate, segmentChartData, funnelData, activityData, totalMessages);
  }
}
