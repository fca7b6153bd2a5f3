/** The reseller's customer page (`CustomerManagement`): the reseller's
    own customers and the search over them. */
module CustomerManagement {
  import opened Common
  import opened Text
  import opened DatabaseContext

  const CUSTOMER := "customer"

  /** `getUsersByRole('customer', user?.id)`: the customers whose reseller
      is the signed-in user; without a user id (none, or an empty one) the
      reseller filter is not applied. */
  function MyCustomers(users: seq<User>, currentUserId: Option<string>): (r: seq<User>)
    ensures IsSubseq(r, users)
    ensures currentUserId.Some? && currentUserId.value != "" ==>
      forall u :: u in r <==> u in users && u.role == CUSTOMER && u.resellerId == currentUserId
    ensures currentUserId.None? ==> forall u :: u in r <==> u in users && u.role == CUSTOMER
  {
    UsersByRole(users, CUSTOMER, if currentUserId.Some? then currentUserId.value else "")
  }

  /** A customer is shown when the email, the full name or the company
      name contains the search term, ignoring case; a missing company name
      matches nothing. */
  predicate Shown(customer: User, searchTerm: string)
  {
    var term := Lower(searchTerm);
    Contains(Lower(customer.email), term) ||
    Contains(Lower(customer.firstName + " " + customer.lastName), term) ||
    (customer.companyName.Some? && Contains(Lower(customer.companyName.value), term))
  }

  /** `filteredCustomers`: the shown customers, in order. */
  function FilteredCustomers(customers: seq<User>, searchTerm: string): (r: seq<User>)
    ensures IsSubseq(r, customers)
    ensures forall x :: x in r <==> x in customers && Shown(x, searchTerm)
  {
    var p := (x: User) => Shown(x, searchTerm);
    FilterIsSubseq(customers, p);
    forall x
      ensures x in Filter(customers, p) <==> x in customers && p(x)
    {
      FilterMember(customers, p, x);
    }
    Filter(customers, p)
  }

  /** Without a company name a customer is still found by email or name. */
  lemma MissingCompanyNameIgnored(customer: User, searchTerm: string)
    requires customer.companyName.None?
    ensures Shown(customer, searchTerm) <==>
      Contains(Lower(customer.email), Lower(searchTerm)) ||
      Contains(Lower(customer.firstName + " " + customer.lastName), Lower(searchTerm))
  {
  }

  /** An empty search term shows all of the reseller's customers. */
  lemma EmptySearchShowsAll(customers: seq<User>)
    ensures FilteredCustomers(customers, "") == customers
  {
    forall i | 0 <= i < |customers|
      ensures Shown(customers[i], "")
    {
      ContainsTrivial(Lower(customers[i].email));
    }
    FilterAll(customers, (x: User) => Shown(x, ""));
  }
}
