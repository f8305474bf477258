/** The client master screen: the service checklist of the client form, the
    search box over the client list, how a stored `services` value is read
    back, and the initials shown beside each client. */
module ClientMaster {
  import opened Util
  import opened Text
  import opened ServicesJson
  import opened TaskStore

  /** The services the form offers as checkboxes. */
  const AvailableServices: seq<string> := [
    "Audit & Assurance",
    "Tax Advisory",
    "Accounting & Bookkeeping",
    "Corporate Compliance",
    "Financial Consulting"
  ]

  /** `handleServiceToggle`: a checked service is removed, every copy of it;
      an unchecked one is appended. */
  function ServiceToggle(services: seq<string>, service: string): (r: seq<string>)
    ensures service in r <==> service !in services
    ensures forall s :: s != service ==> (s in r <==> s in services)
  {
    if service in services then Filter(services, (s: string) => s != service)
    else services + [service]
  }

  /** The other services keep their relative order. */
  lemma ToggleKeepsOthers(services: seq<string>, service: string)
    ensures Filter(ServiceToggle(services, service), (s: string) => s != service)
         == Filter(services, (s: string) => s != service)
  {
    var other := (s: string) => s != service;
    if service in services {
      FilterFilter(services, other, other, other);
    } else {
      assert (services + [service])[..|services|] == services;
    }
  }

  /** Toggling twice gives the same set of services back; the same list when
      the service was unchecked, and the same multiset when it was checked
      once. */
  lemma ToggleTwice(services: seq<string>, service: string)
    ensures forall s :: s in ServiceToggle(ServiceToggle(services, service), service) <==> s in services
    ensures service !in services ==> ServiceToggle(ServiceToggle(services, service), service) == services
    ensures multiset(services)[service] <= 1 ==>
      multiset(ServiceToggle(ServiceToggle(services, service), service)) == multiset(services)
  {
    if service !in services {
      UncheckedTwice(services, service);
    } else if multiset(services)[service] == 1 {
      CheckedOnceTwice(services, service);
    }
  }

  /** Checking an unchecked service and unchecking it again restores the list. */
  lemma UncheckedTwice(services: seq<string>, service: string)
    requires service !in services
    ensures ServiceToggle(ServiceToggle(services, service), service) == services
  {
    var other := (s: string) => s != service;
    FilterKeepsAll(services, other);
    assert (services + [service])[..|services|] == services;
  }

  /** Unchecking a service listed once and checking it again gives back the
      same services, the toggled one moved to the end. */
  lemma CheckedOnceTwice(services: seq<string>, service: string)
    requires multiset(services)[service] == 1
    ensures ServiceToggle(ServiceToggle(services, service), service)
         == Filter(services, (s: string) => s != service) + [service]
    ensures multiset(ServiceToggle(ServiceToggle(services, service), service)) == multiset(services)
  {
    var other := (s: string) => s != service;
    var once := Filter(services, other);
    assert service in services;
    assert ServiceToggle(services, service) == once;
    assert service !in once;
    assert ServiceToggle(once, service) == once + [service];
    SameCounts(services, once, service);
  }

  /** Adding one copy of `service` back to the list with every copy filtered
      out restores the multiset of a list that held exactly one copy. */
  lemma SameCounts(services: seq<string>, once: seq<string>, service: string)
    requires multiset(services)[service] == 1
    requires once == Filter(services, (s: string) => s != service)
    ensures multiset(once + [service]) == multiset(services)
  {
    var other := (s: string) => s != service;
    forall x
      ensures multiset(once + [service])[x] == multiset(services)[x]
    {
      FilterMultiset(services, other, x);
      assert multiset(once + [service]) == multiset(once) + multiset{service};
    }
  }

  /** The text the search compares: a field, lower-cased. */
  predicate Mentions(field: string, query: string) {
    Contains(Lower(field), Lower(query))
  }

  predicate MatchesClient(c: ClientRow, query: string) {
    Mentions(c.name, query) || Mentions(c.email, query) || Mentions(c.contactPerson, query)
  }

  /** `filteredClients`: the clients whose name, email or contact person
      contains the query, ignoring case, in their original order. */
  function FilterClients(clients: seq<ClientRow>, query: string): (r: seq<ClientRow>)
    ensures forall c :: c in r <==> c in clients && MatchesClient(c, query)
    ensures |r| <= |clients|
    ensures query == "" ==> r == clients
  {
    var r := Filter(clients, (c: ClientRow) => MatchesClient(c, query));
    if query == "" then
      forall c | c in clients
        ensures MatchesClient(c, query)
      {
        ContainsEmptyAndSelf(Lower(c.name));
        assert Lower(query) == "";
      }
      FilterKeepsAll(clients, (c: ClientRow) => MatchesClient(c, query));
      r
    else r
  }

  /** The services list a stored `services` text reads back as: the JSON
      array it holds, or else its comma-separated pieces, or none when it is
      empty. */
  function ServicesFromField(text: string): (r: seq<string>)
    ensures text == "" ==> r == []
    ensures Decode(text).Some? ==> r == Decode(text).value
    ensures Decode(text).None? && text != "" ==> |r| >= 1 && Join(r, ',') == text
  {
    match Decode(text)
    case Some(xs) => xs
    case None =>
      if text != "" then
        JoinSplit(text, ',');
        Split(text, ',')
      else []
  }

  /** What the form sends is what it later reads back: a checked list comes
      back as the same list, a missing one as none, and a plain text that is
      not a JSON array as its comma-separated pieces. */
  lemma ServicesRoundTrip(input: ServicesInput)
    ensures input.ServiceList? ==> ServicesFromField(NormalizeServices(input)) == input.items
    ensures input.NoServices? ==> ServicesFromField(NormalizeServices(input)) == []
    ensures input.ServiceText? && input.text != "" && Decode(input.text).None? ==>
      ServicesFromField(NormalizeServices(input)) == Split(input.text, ',')
  {
    assert Decode("[]") == Some([]);
  }
}
