/** The user directory screen (`screens/ListScreen.tsx`): raw records from
    the users endpoint are normalised into `User`s, the full batch is kept
    as the source of truth, and a search query derives the displayed list
    from it. The network outcome is an input; the screen state is a value. */
module Directory {
  import opened Options
  import opened Results
  import opened Text

  /** A directory entry as the screens display it; every field is a plain
      string, absent source data having been replaced by a sentinel. */
  datatype User = User(
    id: string,
    name: string,
    email: string,
    role: string,
    avatar: string,
    department: string,
    location: string)

  /** The sentinel for a missing job title or department. */
  const NotAvailable: string := "N/A"
  /** The sentinel for a missing city. */
  const UnknownCity: string := "Unknown"

  /** The `company` object of a raw record; either field may be absent. */
  datatype Company = Company(title: Option<string>, department: Option<string>)

  /** The `address` object of a raw record; the city may be absent. */
  datatype Address = Address(city: Option<string>)

  /** One element of the `users` array the endpoint returns, reduced to the
      fields the screen reads. */
  datatype RawUser = RawUser(
    id: int,
    firstName: string,
    lastName: string,
    email: string,
    image: string,
    company: Option<Company>,
    address: Option<Address>)

  /** JavaScript truthiness of an optional string: present and non-empty. */
  predicate Truthy(v: Option<string>) {
    v.Some? && v.value != ""
  }

  /** `v || fallback` for an optional string. */
  function OrElse(v: Option<string>, fallback: string): (r: string)
    ensures Truthy(v) ==> r == v.value
    ensures !Truthy(v) ==> r == fallback
  {
    if Truthy(v) then v.value else fallback
  }

  /** `u.company?.title` */
  function TitleOf(u: RawUser): Option<string> {
    if u.company.Some? then u.company.value.title else None
  }

  /** `u.company?.department` */
  function DepartmentOf(u: RawUser): Option<string> {
    if u.company.Some? then u.company.value.department else None
  }

  /** `u.address?.city` */
  function CityOf(u: RawUser): Option<string> {
    if u.address.Some? then u.address.value.city else None
  }

  /** The mapping `fetchData` applies to each raw record. Role, department
      and location are never empty: each is the source value when that is
      present and non-empty, and its sentinel otherwise. The id reads back
      as the raw integer id. */
  function Normalize(u: RawUser): (r: User)
    ensures ParseInt(r.id) == Some(u.id)
    ensures r.name == u.firstName + " " + u.lastName
    ensures r.email == u.email && r.avatar == u.image
    ensures IsCanonicalInt(r.id)
    ensures r.role != "" && r.department != "" && r.location != ""
    ensures r.role == NotAvailable <==> TitleOf(u) in {None, Some(""), Some(NotAvailable)}
    ensures r.role != NotAvailable ==> TitleOf(u) == Some(r.role)
    ensures r.department == NotAvailable <==> DepartmentOf(u) in {None, Some(""), Some(NotAvailable)}
    ensures r.department != NotAvailable ==> DepartmentOf(u) == Some(r.department)
    ensures r.location == UnknownCity <==> CityOf(u) in {None, Some(""), Some(UnknownCity)}
    ensures r.location != UnknownCity ==> CityOf(u) == Some(r.location)
  {
    IntToStringRoundTrip(u.id);
    User(
      id := IntToString(u.id),
      name := u.firstName + " " + u.lastName,
      email := u.email,
      role := OrElse(TitleOf(u), NotAvailable),
      avatar := u.image,
      department := OrElse(DepartmentOf(u), NotAvailable),
      location := OrElse(CityOf(u), UnknownCity))
  }

  /** `data.users.map(...)`: one user per raw record, in the same order. */
  function NormalizeAll(raws: seq<RawUser>): (users: seq<User>)
    ensures |users| == |raws|
    ensures forall i :: 0 <= i < |raws| ==> users[i] == Normalize(raws[i])
  {
    seq(|raws|, i requires 0 <= i < |raws| => Normalize(raws[i]))
  }

  /** A complete record keeps its values; a record without `company` and
      `address` gets the sentinels. */
  lemma NormalizeExamples()
    ensures Normalize(RawUser(1, "Ada", "Lovelace", "a@x.com", "ada.png",
                              Some(Company(Some("Eng"), Some("R&D"))), Some(Address(Some("London")))))
            == User("1", "Ada Lovelace", "a@x.com", "Eng", "ada.png", "R&D", "London")
    ensures var u := Normalize(RawUser(2, "Alan", "Turing", "t@x.com", "alan.png", None, None));
            u.role == NotAvailable && u.department == NotAvailable && u.location == UnknownCity
  {
  }

  /** Records with distinct raw ids get distinct user ids, so the list's
      key extractor sees unique keys whenever the endpoint's ids are unique. */
  lemma NormalizeKeepsIdsDistinct(raws: seq<RawUser>, i: int, j: int)
    requires 0 <= i < |raws| && 0 <= j < |raws|
    requires raws[i].id != raws[j].id
    ensures NormalizeAll(raws)[i].id != NormalizeAll(raws)[j].id
  {
    if NormalizeAll(raws)[i].id == NormalizeAll(raws)[j].id {
      IntToStringInjective(raws[i].id, raws[j].id);
    }
  }

  /** The five fields a search looks at. */
  function SearchFields(u: User): seq<string> {
    [u.name, u.email, u.role, u.department, u.location]
  }

  /** The search predicate: the lower-cased query occurs in the lower-cased
      name, email, role, department or location (any one suffices). */
  predicate Matches(u: User, query: string)
    ensures Matches(u, query) <==>
      exists f, k :: f in SearchFields(u) && OccursAt(Lower(f), Lower(query), k)
  {
    var q := Lower(query);
    || Includes(Lower(u.name), q)
    || Includes(Lower(u.email), q)
    || Includes(Lower(u.role), q)
    || Includes(Lower(u.department), q)
    || Includes(Lower(u.location), q)
  }

  /** `xs` is obtained from `ys` by deleting elements, the rest keeping
      their relative order. */
  predicate IsSubsequence<T(==)>(xs: seq<T>, ys: seq<T>)
    decreases |ys|
  {
    if |xs| == 0 then true
    else if |ys| == 0 then false
    else (xs[0] == ys[0] && IsSubsequence(xs[1..], ys[1..])) || IsSubsequence(xs, ys[1..])
  }

  /** `allUsers.filter(user => Matches(user, query))`: the matching users,
      each as often as it occurs in `users`, in their original order; the
      others are dropped. */
  function Filter(users: seq<User>, query: string): (r: seq<User>)
    ensures |r| <= |users|
    ensures forall u :: multiset(r)[u] == if Matches(u, query) then multiset(users)[u] else 0
    ensures IsSubsequence(r, users)
  {
    if |users| == 0 then []
    else
      var head, tail := users[0], users[1..];
      var rest := Filter(tail, query);
      assert users == [head] + tail;
      assert multiset(users) == multiset{head} + multiset(tail);
      if Matches(head, query) then
        var r := [head] + rest;
        assert r[1..] == rest;
        assert multiset(r) == multiset{head} + multiset(rest);
        r
      else rest
  }

  /** Every kept user matches and every matching user is kept; a user
      that does not match is dropped. */
  lemma FilterKeepsExactlyMatches(users: seq<User>, query: string, u: User)
    ensures u in Filter(users, query) <==> u in users && Matches(u, query)
  {
    assert u in Filter(users, query) <==> multiset(Filter(users, query))[u] > 0;
    assert u in users <==> multiset(users)[u] > 0;
  }

  /** Filtering what a filter kept changes nothing. */
  lemma {:induction false} FilterIdempotent(users: seq<User>, query: string)
    ensures Filter(Filter(users, query), query) == Filter(users, query)
  {
    if |users| > 0 {
      FilterIdempotent(users[1..], query);
      if Matches(users[0], query) {
        assert Filter(users, query)[1..] == Filter(users[1..], query);
      }
    }
  }

  /** Queries that agree after lower-casing select the same users. */
  lemma {:induction false} FilterDependsOnLowerQuery(users: seq<User>, q1: string, q2: string)
    requires Lower(q1) == Lower(q2)
    ensures Filter(users, q1) == Filter(users, q2)
  {
    if |users| > 0 {
      FilterDependsOnLowerQuery(users[1..], q1, q2);
      assert Matches(users[0], q1) == Matches(users[0], q2);
    }
  }

  /** The screen's state: the published result, the retained unfiltered
      batch, and the text in the search box. */
  datatype DirectoryScreen = DirectoryScreen(
    result: Result<seq<User>>,
    allUsers: seq<User>,
    searchQuery: string)

  /** The state on mount: loading, nothing retained, an empty query. */
  function Mounted(): DirectoryScreen {
    DirectoryScreen(Loading, [], "")
  }

  /** A value thrown inside `fetchData`: an `Error` instance (network
      failure, bad JSON, a missing `users` array) or any other value. */
  datatype Thrown = ErrorObject(message: string) | OtherValue

  /** What the request and JSON decoding produced. */
  datatype FetchOutcome = Fetched(raws: seq<RawUser>) | Threw(thrown: Thrown)

  /** The message the catch block publishes. */
  function ErrorMessage(t: Thrown): string {
    match t
    case ErrorObject(m) => m
    case OtherValue => "Unknown error"
  }

  /** The first step of `fetchData`: publish `loading`, nothing else changes. */
  function BeginLoad(s: DirectoryScreen): (r: DirectoryScreen)
    ensures r.result.Loading?
    ensures r.allUsers == s.allUsers && r.searchQuery == s.searchQuery
  {
    s.(result := Loading)
  }

  /** The end of `fetchData`: exactly one terminal state. On success the
      normalised batch becomes the source of truth and is published whole
      (whatever the search box holds); on a throw the message is published
      and the retained batch is left as it was. */
  function CompleteLoad(s: DirectoryScreen, outcome: FetchOutcome): (r: DirectoryScreen)
    ensures !r.result.Loading?
    ensures r.result.Success? <==> outcome.Fetched?
    ensures outcome.Fetched? ==> r.allUsers == NormalizeAll(outcome.raws) && r.result.data == r.allUsers
    ensures outcome.Threw? ==> r.allUsers == s.allUsers
    ensures outcome.Threw? && outcome.thrown.ErrorObject? ==> r.result == Error(outcome.thrown.message)
    ensures outcome.Threw? && outcome.thrown.OtherValue? ==> r.result == Error("Unknown error")
    ensures r.searchQuery == s.searchQuery
  {
    match outcome
    case Fetched(raws) =>
      var users := NormalizeAll(raws);
      s.(allUsers := users, result := Success(users))
    case Threw(t) =>
      s.(result := Error(ErrorMessage(t)))
  }

  /** `fetchData` as a whole: after its `loading` step it ends in exactly
      one terminal state; on success the stored batch is the normalised
      records and is published whole, on a throw the stored batch is kept
      and the thrown value's message is published. */
  function FetchData(s: DirectoryScreen, outcome: FetchOutcome): (r: DirectoryScreen)
    ensures BeginLoad(s).result.Loading?
    ensures !r.result.Loading?
    ensures r.result.Success? <==> outcome.Fetched?
    ensures outcome.Fetched? ==> r.allUsers == NormalizeAll(outcome.raws) && r.result.data == r.allUsers
    ensures outcome.Threw? ==> r.allUsers == s.allUsers && r.result == Error(ErrorMessage(outcome.thrown))
    ensures r.searchQuery == s.searchQuery
  {
    CompleteLoad(BeginLoad(s), outcome)
  }

  /** `handleSearch(query)`: records the query and publishes `success` with
      the whole retained batch when the query is blank, and otherwise with
      exactly the retained users that match the untrimmed query, in order.
      The retained batch itself is never touched. */
  function HandleSearch(s: DirectoryScreen, query: string): (r: DirectoryScreen)
    ensures r.searchQuery == query && r.allUsers == s.allUsers
    ensures r.result.Success?
    ensures IsBlank(query) ==> r.result.data == s.allUsers
    ensures !IsBlank(query) ==>
      forall u :: multiset(r.result.data)[u] == if Matches(u, query) then multiset(s.allUsers)[u] else 0
    ensures IsSubsequence(r.result.data, s.allUsers)
  {
    TrimEmptyIffBlank(query);
    if Trim(query) == "" then
      assert IsSubsequence(s.allUsers, s.allUsers) by { SubsequenceReflexive(s.allUsers); }
      s.(searchQuery := query, result := Success(s.allUsers))
    else
      s.(searchQuery := query, result := Success(Filter(s.allUsers, query)))
  }

  lemma {:induction false} SubsequenceReflexive<T>(xs: seq<T>)
    ensures IsSubsequence(xs, xs)
  {
    if |xs| > 0 {
      SubsequenceReflexive(xs[1..]);
    }
  }

  /** Searching reads the retained batch, never the previous result: a
      search followed by another is the second search alone. */
  lemma SearchIsNonDestructive(s: DirectoryScreen, q1: string, q2: string)
    ensures HandleSearch(HandleSearch(s, q1), q2) == HandleSearch(s, q2)
  {
  }

  /** Search is case-insensitive in the query: upper- or lower-casing it
      publishes the same list. */
  lemma SearchIgnoresQueryCase(s: DirectoryScreen, query: string)
    ensures HandleSearch(s, Upper(query)).result == HandleSearch(s, query).result
    ensures HandleSearch(s, Lower(query)).result == HandleSearch(s, query).result
  {
    LowerForgetsCase(query);
    CaseMappingKeepsBlank(query);
    TrimEmptyIffBlank(query);
    TrimEmptyIffBlank(Upper(query));
    TrimEmptyIffBlank(Lower(query));
    FilterDependsOnLowerQuery(s.allUsers, Upper(query), query);
    FilterDependsOnLowerQuery(s.allUsers, Lower(query), query);
  }

  /** After a successful load, a blank search shows every record of the
      batch, one user per record, in the endpoint's order. */
  lemma LoadThenBlankSearch(raws: seq<RawUser>, query: string)
    requires IsBlank(query)
    ensures var r := HandleSearch(FetchData(Mounted(), Fetched(raws)), query).result;
            |r.data| == |raws| && forall i :: 0 <= i < |raws| ==> r.data[i] == Normalize(raws[i])
  {
  }

  /** After a failed load the retained batch is empty, so every later
      search publishes an empty list. */
  lemma FailedLoadThenSearch(t: Thrown, query: string)
    ensures FetchData(Mounted(), Threw(t)).allUsers == []
    ensures HandleSearch(FetchData(Mounted(), Threw(t)), query).result == Success([])
  {
  }
}
