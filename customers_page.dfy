/** The customers page: the search over the garage's customers and the
    last-visit label. */
module CustomersPage {
  import opened Common
  import opened Text
  import opened Schema

  /** The search test: the lower-cased name or bike number includes the
      lower-cased term, or the phone includes the term as typed. */
  predicate CustomerMatches(c: Customer, term: string)
  {
    Includes(ToLower(c.name), ToLower(term)) || Includes(c.phone, term)
    || Includes(ToLower(c.bikeNumber), ToLower(term))
  }

  /** filteredCustomers: the customers the list shows, in the order fetched. */
  function FilteredCustomers(customers: seq<Customer>, term: string): (r: seq<Customer>)
    ensures forall c :: c in r <==> c in customers && CustomerMatches(c, term)
    ensures forall c :: multiset(r)[c] == if CustomerMatches(c, term) then multiset(customers)[c] else 0
    ensures IsSubsequence(r, customers)
  {
    Filter(customers, (c: Customer) => CustomerMatches(c, term))
  }

  /** An empty search shows every customer. */
  lemma EmptySearchShowsAllCustomers(customers: seq<Customer>)
    ensures FilteredCustomers(customers, "") == customers
  {
    forall i | 0 <= i < |customers| ensures CustomerMatches(customers[i], "") {
      IncludesEmpty(ToLower(customers[i].name));
    }
    FilterKeepsAll(customers, (c: Customer) => CustomerMatches(c, ""));
  }

  /** Typing a customer's whole phone number finds that customer. */
  lemma SearchingThePhoneFindsTheCustomer(customers: seq<Customer>, c: Customer)
    requires c in customers
    ensures c in FilteredCustomers(customers, c.phone)
  {
    assert StartsWith(c.phone, c.phone);
  }

  /** formatLastVisit: a customer never invoiced shows "No visits";
      otherwise the date as the locale formats it (`format`). */
  function FormatLastVisit(lastVisit: Option<nat>, format: nat -> string): (r: string)
    ensures lastVisit.None? ==> r == "No visits"
    ensures lastVisit.Some? ==> r == format(lastVisit.value)
  {
    if lastVisit.None? then "No visits" else format(lastVisit.value)
  }

  /** A new customer shows "No visits". */
  lemma NewCustomerHasNoVisits(id: string, at: nat, n: NewCustomer, format: nat -> string)
    ensures FormatLastVisit(InsertedCustomer(id, at, n).lastVisit, format) == "No visits"
  {
  }
}
