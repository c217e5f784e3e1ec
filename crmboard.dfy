/**
 * components/CRMBoard.tsx: the kanban of CRM contacts. A contact passes when
 * it matches the search term and the date range; in status mode it lands in
 * one of four qualification columns by keyword priority, in segment mode in
 * the column of its cleaned segment.
 */
module CrmBoard {
  import opened Wrappers
  import opened Text
  import opened Types
  import Sorting
  import Tally

  /** `cleanData`: a falsy text and the placeholders "EMPTY" and "NULL" carry no data. */
  function CleanData(text: Option<string>): (r: Option<string>)
    ensures r.None? <==> !Truthy(text) || text.value == "EMPTY" || text.value == "NULL"
    ensures r.Some? ==> r == text
  {
    if !Truthy(text) || text.value == "EMPTY" || text.value == "NULL" then None else text
  }

  /** Cleaning twice is cleaning once. */
  lemma CleanDataIdempotent(text: Option<string>)
    ensures CleanData(CleanData(text)) == CleanData(text)
  {
  }

  /** The segment of a contact has data. */
  predicate HasSegment(contacts: seq<Contact>, s: string) {
    exists c :: c in contacts && CleanData(c.segmento) == Some(s)
  }

  /**
   * `uniqueSegments`: the cleaned segments of the contacts, each once, in
   * ascending code-unit order (the default `Array.prototype.sort`).
   */
  method UniqueSegments(contacts: seq<Contact>) returns (r: seq<string>)
    ensures Tally.Distinct(r)
    ensures forall i, j :: 0 <= i < j < |r| ==> StrLe(r[i], r[j])
    ensures forall s :: s in r <==> HasSegment(contacts, s)
  {
    var segs: seq<string> := [];
    var i := 0;
    while i < |contacts|
      invariant 0 <= i <= |contacts|
      invariant Tally.Distinct(segs)
      invariant forall s :: s in segs <==> HasSegment(contacts[..i], s)
    {
      assert contacts[..i + 1] == contacts[..i] + [contacts[i]];
      var s := CleanData(contacts[i].segmento);
      if s.Some? && s.value !in segs {
        segs := segs + [s.value];
      }
      i := i + 1;
    }
    assert contacts[..i] == contacts;
    StrLeProperties();
    r := Sorting.Sort(segs, StrLe);
    Sorting.SortSorted(segs, StrLe);
    assert Sorting.UniqueBy(segs, (x: string) => x);
    Sorting.SortUniqueBy(segs, StrLe, (x: string) => x);
    forall s ensures s in r <==> s in segs {
      Sorting.SortMembers(segs, StrLe, s);
    }
  }

  /** The search test: an empty term lets everything through. */
  predicate MatchesSearch(c: Contact, term: string) {
    term == "" || Contains(Lower(c.name), Lower(term)) || Contains(c.phone, term)
  }

  /**
   * `filterByDate` over instants. `end` is the end-of-day instant of the
   * chosen end date (`setHours(23, 59, 59, 999)` is left to the caller).
   */
  predicate FilterByDate(created: int, start: Option<int>, end: Option<int>) {
    if start.None? && end.None? then true
    else !(start.Some? && created < start.value) && !(end.Some? && created > end.value)
  }

  /** The date filter is a closed interval: both bounds are inclusive, a missing one is no bound. */
  lemma FilterByDateInterval(created: int, start: Option<int>, end: Option<int>)
    ensures FilterByDate(created, start, end) <==>
              (start.None? || start.value <= created) && (end.None? || created <= end.value)
  {
  }

  predicate Passes(c: Contact, term: string, start: Option<int>, end: Option<int>) {
    MatchesSearch(c, term) && FilterByDate(c.createdAt, start, end)
  }

  /** With no search term and no dates, every contact passes. */
  lemma NoFilterPassesAll(c: Contact)
    ensures Passes(c, "", None, None)
  {
  }

  // ---------------------------------------------------------------- status mode

  const MqlKeywords: seq<string> := ["qualificado", "agendado", "reunião", "proposta", "ganho", "ganha", "fechamento"]
  const FrioKeywords: seq<string> := ["desqualificado", "perdido", "perdi", "arquivado", "cancelado", "sem interesse"]
  const TriagemKeywords: seq<string> := ["atendimento", "andamento", "validando", "contato", "respondeu"]

  /** The text contains one of the keywords. */
  predicate MentionsAny(s: string, keywords: seq<string>) {
    exists i :: 0 <= i < |keywords| && Contains(s, keywords[i])
  }

  datatype StatusColumn = Novo | Triagem | Mql | Frio

  /** The contact's status, lower-cased, with a missing status read as empty. */
  function StatusText(c: Contact): string {
    Lower(OrElse(c.status, ""))
  }

  /** The column chosen by the board's keyword priority. */
  function Classify(statusLower: string): StatusColumn {
    if MentionsAny(statusLower, MqlKeywords) then Mql
    else if MentionsAny(statusLower, FrioKeywords) then Frio
    else if MentionsAny(statusLower, TriagemKeywords) then Triagem
    else Novo
  }

  /** Each column, characterised by the keyword groups it needs and the ones it must miss. */
  lemma ClassifyPriority(s: string)
    ensures Classify(s) == Mql <==> MentionsAny(s, MqlKeywords)
    ensures Classify(s) == Frio <==> !MentionsAny(s, MqlKeywords) && MentionsAny(s, FrioKeywords)
    ensures Classify(s) == Triagem <==>
              !MentionsAny(s, MqlKeywords) && !MentionsAny(s, FrioKeywords) && MentionsAny(s, TriagemKeywords)
    ensures Classify(s) == Novo <==>
              !MentionsAny(s, MqlKeywords) && !MentionsAny(s, FrioKeywords) && !MentionsAny(s, TriagemKeywords)
  {
  }

  /** "qualificado" is tested first, so a "desqualificado" status is an MQL on the board. */
  lemma DesqualificadoIsMql(s: string)
    requires Contains(s, "desqualificado")
    ensures Classify(s) == Mql
  {
    assert OccursAt("desqualificado", "qualificado", 3);
    ContainsTransitive(s, "desqualificado", "qualificado");
    assert MqlKeywords[0] == "qualificado";
  }

  /** A missing or empty status matches no keyword and goes to the new-leads column. */
  lemma EmptyStatusIsNovo(c: Contact)
    requires !Truthy(c.status)
    ensures Classify(StatusText(c)) == Novo
  {
    assert StatusText(c) == "";
    forall i | 0 <= i < |MqlKeywords| ensures !Contains("", MqlKeywords[i]) {
      NothingInEmpty(MqlKeywords[i]);
    }
    forall i | 0 <= i < |FrioKeywords| ensures !Contains("", FrioKeywords[i]) {
      NothingInEmpty(FrioKeywords[i]);
    }
    forall i | 0 <= i < |TriagemKeywords| ensures !Contains("", TriagemKeywords[i]) {
      NothingInEmpty(TriagemKeywords[i]);
    }
  }

  /** The column of a contact, or None when the filters drop it. */
  function StatusKey(c: Contact, term: string, start: Option<int>, end: Option<int>): Option<StatusColumn> {
    if Passes(c, term, start, end) then Some(Classify(StatusText(c))) else None
  }

  datatype StatusBoard = StatusBoard(novo: seq<Contact>, triagem: seq<Contact>, mql: seq<Contact>, frio: seq<Contact>)

  function ColumnOf(b: StatusBoard, col: StatusColumn): seq<Contact> {
    match col
    case Novo => b.novo
    case Triagem => b.triagem
    case Mql => b.mql
    case Frio => b.frio
  }

  /** `boardData` in status mode: every column holds the passing contacts it gets, in input order. */
  method BoardByStatus(contacts: seq<Contact>, term: string, start: Option<int>, end: Option<int>)
    returns (b: StatusBoard)
    ensures forall col :: ColumnOf(b, col) ==
              Tally.Select(contacts, (c: Contact) => StatusKey(c, term, start, end), Some(col))
  {
    var key := (c: Contact) => StatusKey(c, term, start, end);
    var novo, triagem, mql, frio := [], [], [], [];
    var i := 0;
    while i < |contacts|
      invariant 0 <= i <= |contacts|
      invariant novo == Tally.Select(contacts[..i], key, Some(Novo))
      invariant triagem == Tally.Select(contacts[..i], key, Some(Triagem))
      invariant mql == Tally.Select(contacts[..i], key, Some(Mql))
      invariant frio == Tally.Select(contacts[..i], key, Some(Frio))
    {
      var contact := contacts[i];
      assert contacts[..i + 1] == contacts[..i] + [contact];
      Tally.SelectSnoc(contacts[..i], contact, key, Some(Novo));
      Tally.SelectSnoc(contacts[..i], contact, key, Some(Triagem));
      Tally.SelectSnoc(contacts[..i], contact, key, Some(Mql));
      Tally.SelectSnoc(contacts[..i], contact, key, Some(Frio));
      if Passes(contact, term, start, end) {
        var statusLower := StatusText(contact);
        if MentionsAny(statusLower, MqlKeywords) {
          mql := mql + [contact];
        } else if MentionsAny(statusLower, FrioKeywords) {
          frio := frio + [contact];
        } else if MentionsAny(statusLower, TriagemKeywords) {
          triagem := triagem + [contact];
        } else {
          novo := novo + [contact];
        }
      }
      i := i + 1;
    }
    assert contacts[..i] == contacts;
    b := StatusBoard(novo, triagem, mql, frio);
  }

  /**
   * Exactly one column: a passing contact is in the column of its status and
   * in no other; a contact the filters drop is in none.
   */
  lemma ExactlyOneColumn(contacts: seq<Contact>, term: string, start: Option<int>, end: Option<int>,
                         c: Contact, col: StatusColumn)
    requires c in contacts
    ensures c in Tally.Select(contacts, (x: Contact) => StatusKey(x, term, start, end), Some(col)) <==>
              Passes(c, term, start, end) && Classify(StatusText(c)) == col
  {
    Tally.SelectMembers(contacts, (x: Contact) => StatusKey(x, term, start, end), Some(col), c);
  }

  /** The four columns together hold as many contacts as pass the filters. */
  lemma StatusPartition(contacts: seq<Contact>, term: string, start: Option<int>, end: Option<int>)
    ensures var key := (x: Contact) => StatusKey(x, term, start, end);
            |Tally.Select(contacts, key, Some(Novo))| + |Tally.Select(contacts, key, Some(Triagem))| +
            |Tally.Select(contacts, key, Some(Mql))| + |Tally.Select(contacts, key, Some(Frio))| ==
            |Tally.Filter(contacts, (x: Contact) => Passes(x, term, start, end))|
  {
    var key := (x: Contact) => StatusKey(x, term, start, end);
    var ks: seq<StatusColumn> := [Novo, Triagem, Mql, Frio];
    forall x | x in contacts && key(x).Some? ensures key(x).value in ks {
      assert key(x).value == ks[0] || key(x).value == ks[1] || key(x).value == ks[2] || key(x).value == ks[3];
    }
    Tally.OptionalPartition(contacts, key, ks);
    Tally.SelectNoneComplement(contacts, key, (x: Contact) => Passes(x, term, start, end));
    var sk: seq<Option<StatusColumn>> := Tally.Somes(ks);
    assert Tally.SumCounts(contacts, key, sk[3..]) == |Tally.Select(contacts, key, Some(Frio))| by {
      assert |sk[3..][1..]| == 0;
    }
    assert Tally.SumCounts(contacts, key, sk[2..]) ==
           |Tally.Select(contacts, key, Some(Mql))| + Tally.SumCounts(contacts, key, sk[3..]) by {
      assert sk[2..][1..] == sk[3..];
    }
    assert Tally.SumCounts(contacts, key, sk[1..]) ==
           |Tally.Select(contacts, key, Some(Triagem))| + Tally.SumCounts(contacts, key, sk[2..]) by {
      assert sk[1..][1..] == sk[2..];
    }
  }

  /** Each column keeps the contacts in their input order. */
  lemma ColumnsKeepOrder(contacts: seq<Contact>, term: string, start: Option<int>, end: Option<int>, col: StatusColumn)
    ensures Tally.Subsequence(Tally.Select(contacts, (x: Contact) => StatusKey(x, term, start, end), Some(col)), contacts)
  {
    Tally.SelectSubsequence(contacts, (x: Contact) => StatusKey(x, term, start, end), Some(col));
  }

  // ---------------------------------------------------------------- segment mode

  /** The column of the contacts without a usable segment. */
  const NoSegment: string := "sem_segmento"

  /** The column of a contact in segment mode, or None when the filters drop it. */
  function SegmentKey(c: Contact, segments: seq<string>, term: string, start: Option<int>, end: Option<int>): Option<string> {
    if !Passes(c, term, start, end) then None
    else
      var seg := CleanData(c.segmento);
      if seg.Some? && (seg.value in segments || seg.value == NoSegment) then seg else Some(NoSegment)
  }

  /** The empty columns of segment mode: one per segment, then `sem_segmento`. */
  method EmptySegmentColumns(segments: seq<string>) returns (columns: map<string, seq<Contact>>)
    ensures columns.Keys == SegmentColumnKeys(segments)
    ensures forall k :: k in columns ==> columns[k] == []
  {
    columns := map[];
    var j := 0;
    while j < |segments|
      invariant 0 <= j <= |segments|
      invariant columns.Keys == set s | s in segments[..j]
      invariant forall k :: k in columns ==> columns[k] == []
    {
      assert segments[..j + 1] == segments[..j] + [segments[j]];
      columns := columns[segments[j] := []];
      j := j + 1;
    }
    assert segments[..j] == segments;
    columns := columns[NoSegment := []];
  }

  /** The columns of segment mode. */
  function SegmentColumnKeys(segments: seq<string>): set<string> {
    (set s | s in segments) + {NoSegment}
  }

  /** Every contact that passes has a column. */
  lemma SegmentKeyHasColumn(c: Contact, segments: seq<string>, term: string, start: Option<int>, end: Option<int>)
    ensures var k := SegmentKey(c, segments, term, start, end);
            k.Some? ==> k.value in SegmentColumnKeys(segments)
  {
  }

  /** One contact of the `forEach` in segment mode: pushed onto the column of its key, if any. */
  method PlaceBySegment(columns: map<string, seq<Contact>>, contact: Contact, segments: seq<string>,
                        term: string, start: Option<int>, end: Option<int>)
    returns (r: map<string, seq<Contact>>)
    requires columns.Keys == SegmentColumnKeys(segments)
    ensures var k := SegmentKey(contact, segments, term, start, end);
            r == if k.Some? then columns[k.value := columns[k.value] + [contact]] else columns
  {
    r := columns;
    if !Passes(contact, term, start, end) {
      return;
    }
    var seg := CleanData(contact.segmento);
    if seg.Some? && seg.value in columns {
      r := columns[seg.value := columns[seg.value] + [contact]];
    } else {
      r := columns[NoSegment := columns[NoSegment] + [contact]];
    }
  }

  /** `boardData` in segment mode: every column holds the passing contacts it gets, in input order. */
  method BoardBySegment(contacts: seq<Contact>, segments: seq<string>, term: string, start: Option<int>, end: Option<int>)
    returns (columns: map<string, seq<Contact>>)
    ensures columns.Keys == SegmentColumnKeys(segments)
    ensures forall k :: k in columns ==>
              columns[k] == Tally.Select(contacts, (c: Contact) => SegmentKey(c, segments, term, start, end), Some(k))
  {
    var key := (c: Contact) => SegmentKey(c, segments, term, start, end);
    columns := EmptySegmentColumns(segments);
    var i := 0;
    while i < |contacts|
      invariant 0 <= i <= |contacts|
      invariant columns.Keys == SegmentColumnKeys(segments)
      invariant Tally.ColumnsSelect(columns, contacts[..i], key)
    {
      SegmentKeyHasColumn(contacts[i], segments, term, start, end);
      Tally.SelectColumnsStep(columns, contacts, i, key);
      columns := PlaceBySegment(columns, contacts[i], segments, term, start, end);
      i := i + 1;
    }
    assert contacts[..i] == contacts;
  }

  /**
   * With the segments of the board, a passing contact with a cleaned segment
   * goes to that segment's column, any other passing contact to `sem_segmento`.
   */
  lemma SegmentColumn(contacts: seq<Contact>, segments: seq<string>, term: string, start: Option<int>, end: Option<int>,
                      c: Contact)
    requires forall s :: s in segments <==> HasSegment(contacts, s)
    requires c in contacts && Passes(c, term, start, end)
    ensures CleanData(c.segmento).Some? ==> SegmentKey(c, segments, term, start, end) == CleanData(c.segmento)
    ensures CleanData(c.segmento).None? ==> SegmentKey(c, segments, term, start, end) == Some(NoSegment)
  {
    if CleanData(c.segmento).Some? {
      assert HasSegment(contacts, CleanData(c.segmento).value);
    }
  }

  /** The segment columns together hold as many contacts as pass the filters. */
  lemma SegmentPartition(contacts: seq<Contact>, segments: seq<string>, term: string, start: Option<int>, end: Option<int>)
    requires Tally.Distinct(segments)
    ensures var key := (c: Contact) => SegmentKey(c, segments, term, start, end);
            var ks := if NoSegment in segments then segments else segments + [NoSegment];
            Tally.SumCounts(contacts, key, Tally.Somes(ks)) ==
            |Tally.Filter(contacts, (c: Contact) => Passes(c, term, start, end))|
  {
    var key := (c: Contact) => SegmentKey(c, segments, term, start, end);
    var ks := if NoSegment in segments then segments else segments + [NoSegment];
    assert Tally.Distinct(ks) by {
      forall i, j | 0 <= i < j < |ks| ensures ks[i] != ks[j] {
        if j == |segments| {
          assert ks[j] == NoSegment && ks[i] == segments[i];
        } else {
          assert ks[i] == segments[i] && ks[j] == segments[j];
        }
      }
    }
    forall x | x in contacts && key(x).Some? ensures key(x).value in ks {
      assert key(x).value in segments || key(x).value == NoSegment;
      if key(x).value == NoSegment && NoSegment !in segments {
        assert ks[|segments|] == NoSegment;
      }
    }
    Tally.OptionalPartition(contacts, key, ks);
    Tally.SelectNoneComplement(contacts, key, (c: Contact) => Passes(c, term, start, end));
  }
}
