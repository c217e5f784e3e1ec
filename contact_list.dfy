/**
 * components/ContactList.tsx: the table of CRM leads, narrowed by a search
 * over name, phone and company, with a temperature badge per lead.
 */
module ContactList {
  import opened Wrappers
  import opened Text
  import opened Types
  import Tally

  /** The three ways a lead matches the search. */
  predicate NameMatches(c: Contact, term: string) {
    Contains(Lower(c.name), Lower(term))
  }

  predicate PhoneMatches(c: Contact, term: string) {
    Contains(c.phone, term)
  }

  /** The company matches the term; a falsy company matches nothing. */
  predicate CompanyMatches(c: Contact, term: string) {
    Truthy(c.empresa) && Contains(Lower(c.empresa.value), Lower(term))
  }

  predicate MatchesSearch(c: Contact, term: string) {
    NameMatches(c, term) || PhoneMatches(c, term) || CompanyMatches(c, term)
  }

  /** `filteredContacts`: the leads that match, in table order. */
  function FilteredContacts(contacts: seq<Contact>, term: string): (r: seq<Contact>)
    ensures forall c :: c in r ==> c in contacts && MatchesSearch(c, term)
    ensures forall c :: c in contacts && MatchesSearch(c, term) ==> c in r
    ensures Tally.Subsequence(r, contacts)
    ensures forall x :: multiset(r)[x] == if MatchesSearch(x, term) then multiset(contacts)[x] else 0
  {
    Tally.FilterMultiset(contacts, (c: Contact) => MatchesSearch(c, term));
    Tally.FilterSubsequence(contacts, (c: Contact) => MatchesSearch(c, term));
    Tally.Filter(contacts, (c: Contact) => MatchesSearch(c, term))
  }

  /** An empty search keeps every lead, in order. */
  lemma EmptySearchKeepsAll(contacts: seq<Contact>)
    ensures FilteredContacts(contacts, "") == contacts
  {
    forall c | c in contacts ensures MatchesSearch(c, "") {
      ContainsEmpty(c.phone);
    }
    Tally.FilterAll(contacts, (c: Contact) => MatchesSearch(c, ""));
  }

  /** A lead without a company is found only by its name or its phone. */
  lemma NoCompanyMatchesByNameOrPhone(contacts: seq<Contact>, term: string, c: Contact)
    requires !Truthy(c.empresa)
    requires c in FilteredContacts(contacts, term)
    ensures NameMatches(c, term) || PhoneMatches(c, term)
  {
  }

  /** A lead's company name finds it even when neither its name nor its phone would. */
  lemma CompanyFindsLead(contacts: seq<Contact>, c: Contact)
    requires c in contacts && Truthy(c.empresa)
    ensures c in FilteredContacts(contacts, c.empresa.value)
  {
    assert OccursAt(Lower(c.empresa.value), Lower(c.empresa.value), 0);
  }

  datatype Badge = Quente | Frio | Morno | NoBadge

  /** `getTempBadge`: the first of "quente", "frio", "morno" the lower-cased temperature contains. */
  function TempBadge(temperatura: Option<string>): (r: Badge)
    ensures var t := Lower(OrElse(temperatura, ""));
            && (r == Quente <==> Contains(t, "quente"))
            && (r == Frio <==> !Contains(t, "quente") && Contains(t, "frio"))
            && (r == Morno <==> !Contains(t, "quente") && !Contains(t, "frio") && Contains(t, "morno"))
  {
    var t := Lower(OrElse(temperatura, ""));
    if Contains(t, "quente") then Quente
    else if Contains(t, "frio") then Frio
    else if Contains(t, "morno") then Morno
    else NoBadge
  }

  /** No temperature, or an empty one, shows the "-" badge. */
  lemma MissingTemperatureHasNoBadge(temperatura: Option<string>)
    requires !Truthy(temperatura)
    ensures TempBadge(temperatura) == NoBadge
  {
    assert Lower(OrElse(temperatura, "")) == "";
    NothingInEmpty("quente");
    NothingInEmpty("frio");
    NothingInEmpty("morno");
  }

  /**
   * A temperature that lower-cases to "quente", "frio" or "morno" (the three
   * values the type names, in any letter case) gets its own badge.
   */
  lemma NamedTemperatures(s: string)
    ensures Lower(s) == "quente" ==> TempBadge(Some(s)) == Quente
    ensures Lower(s) == "frio" ==> TempBadge(Some(s)) == Frio
    ensures Lower(s) == "morno" ==> TempBadge(Some(s)) == Morno
  {
    assert Lower(s) != "" ==> Truthy(Some(s));
    assert OccursAt("quente", "quente", 0);
    assert OccursAt("frio", "frio", 0);
    assert !Contains("frio", "quente");
    assert OccursAt("morno", "morno", 0);
    assert !Contains("morno", "quente");
    assert !Contains("morno", "frio") by {
      forall i | 0 <= i <= 5 ensures !OccursAt("morno", "frio", i) {
        if i <= 1 {
          assert "morno"[i] != 'f';
        }
      }
    }
  }

}
