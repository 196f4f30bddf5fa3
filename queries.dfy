/** The list-query builders for customers and staff users, as the projection, joins and
    filter conditions they add to the query rather than as SQL text. */
module Queries {
  import opened Base

  /** A filter condition of a WHERE clause. */
  datatype Filter =
    | Equals(column: string, value: Arg)     // column = ?
    | InList(column: string, values: seq<int>) // column IN (?)
    | Like(column: string, pattern: string)  // column LIKE ?
    | AnyLike(columns: seq<string>, pattern: string) // c1 LIKE ? OR c2 LIKE ? ...

  /** A bound query parameter. */
  datatype Arg = IntArg(i: int) | StrArg(s: string)

  /** The projection, the LEFT JOIN clauses and the conditions of a built query. */
  datatype Query = Query(table: string, columns: seq<string>, joins: seq<string>, filters: seq<Filter>)

  /** How a non-empty customer search term is matched. */
  datatype CustomerSearch = NoSearch | ByPhone | ByUid | ByName | ByAnyText

  function Count(b: bool): nat { if b then 1 else 0 }

  /** The filter `f` when `present`, otherwise nothing: how the builders add a condition. */
  function Optional(present: bool, f: Filter): (r: seq<Filter>)
    ensures |r| == Count(present)
    ensures forall g :: g in r <==> present && g == f
  {
    if present then [f] else []
  }

  /** `%term%`, the pattern of a substring match. */
  function Contains(term: string): string { "%" + term + "%" }

  /** The search-term classifier of the customer list: a number `strconv.Atoi` accepts is a
      phone when it has 12 characters and a Kenyan mobile prefix, else a uid; a non-number
      is a name when it is ASCII letters only, else it is matched against uid, phone and
      name. */
  function ClassifyCustomerSearch(term: string): (k: CustomerSearch)
    ensures k == NoSearch <==> term == ""
    ensures k == ByPhone ==> Atoi(term).Some? && |term| == 12
    ensures k == ByUid ==> Atoi(term).Some?
    ensures k == ByName || k == ByAnyText ==> Atoi(term).None?
    ensures term != "" && Atoi(term).Some? ==>
              (k == ByPhone <==> |term| == 12 && (HasPrefix(term, "2547") || HasPrefix(term, "2541")))
    ensures term != "" && Atoi(term).None? ==> (k == ByName <==> AllAsciiLetters(term))
  {
    if term == "" then NoSearch
    else if Atoi(term).Some? then
      if |term| == 12 && (HasPrefix(term, "2547") || HasPrefix(term, "2541")) then ByPhone else ByUid
    else if AllAsciiLetters(term) then ByName
    else ByAnyText
  }

  /** The condition the search term adds: one at most. */
  function CustomerSearchFilters(term: string): (r: seq<Filter>)
    ensures |r| == Count(term != "")
    ensures forall f | f in r :: !f.InList? && (f.Equals? ==> f.value.StrArg?)
  {
    match ClassifyCustomerSearch(term)
    case NoSearch => []
    case ByPhone => [Equals("c.primary_mobile", StrArg(term))]
    case ByUid => [Equals("c.uid", StrArg(term))]
    case ByName => [Like("c.full_name", Contains(term))]
    case ByAnyText => [AnyLike(["c.uid", "c.primary_mobile", "c.full_name"], Contains(term))]
  }

  const CustomerListColumns: seq<string> := ["c.uid", "c.passport_photo", "c.full_name",
    "u.name AS agent", "c.email_address", "c.primary_mobile", "b.name AS branch",
    "c.physical_address", "cs.name AS status"]

  const CustomerListJoins: seq<string> := [
    "o_users u ON c.current_agent = u.uid",
    "o_branches b ON c.branch = b.uid",
    "o_customer_statuses cs ON c.status = cs.code"]

  /** `FindManyCustomersQueryBuilder`. */
  function FindManyCustomersQueryBuilder(branch: int, agent: int, status: int, branches: seq<int>,
                                         readAll: bool, searchTerm: string, queryType: string): (r: Query)
    ensures r.table == "o_customers c"
    ensures queryType == "count" ==> r.columns == ["c.uid"] && r.joins == []
    ensures queryType != "count" ==> r.columns == CustomerListColumns && r.joins == CustomerListJoins
    // each attribute filter is present exactly when its parameter is set ...
    ensures Equals("c.branch", IntArg(branch)) in r.filters <==> branch != 0
    ensures Equals("c.current_agent", IntArg(agent)) in r.filters <==> agent != 0
    ensures Equals("c.status", IntArg(status)) in r.filters <==> status != 0
    ensures InList("c.branch", branches) in r.filters <==> !readAll
    // ... the search adds its own, and there is nothing else
    ensures forall f | f in CustomerSearchFilters(searchTerm) :: f in r.filters
    ensures |r.filters| == Count(branch != 0) + Count(agent != 0) + Count(status != 0)
                           + Count(!readAll) + Count(searchTerm != "")
  {
    var columns := if queryType == "count" then ["c.uid"] else CustomerListColumns;
    var joins := if queryType == "count" then [] else CustomerListJoins;
    Query("o_customers c", columns, joins,
          CustomerAttributeFilters(branch, agent, status, branches, readAll)
          + CustomerSearchFilters(searchTerm))
  }

  /** The conditions on the customer's branch, agent and status. */
  function CustomerAttributeFilters(branch: int, agent: int, status: int, branches: seq<int>,
                                    readAll: bool): (r: seq<Filter>)
    ensures Equals("c.branch", IntArg(branch)) in r <==> branch != 0
    ensures Equals("c.current_agent", IntArg(agent)) in r <==> agent != 0
    ensures Equals("c.status", IntArg(status)) in r <==> status != 0
    ensures InList("c.branch", branches) in r <==> !readAll
    ensures |r| == Count(branch != 0) + Count(agent != 0) + Count(status != 0) + Count(!readAll)
  {
    Optional(branch != 0, Equals("c.branch", IntArg(branch)))
    + Optional(agent != 0, Equals("c.current_agent", IntArg(agent)))
    + Optional(status != 0, Equals("c.status", IntArg(status)))
    + Optional(!readAll, InList("c.branch", branches))
  }

  /** The count query and the page query filter by the same conditions, so the total counts
      exactly the rows the pages list. */
  lemma CustomerCountMatchesPage(branch: int, agent: int, status: int, branches: seq<int>,
                                 readAll: bool, searchTerm: string, queryType: string)
    ensures FindManyCustomersQueryBuilder(branch, agent, status, branches, readAll, searchTerm, "count").filters
         == FindManyCustomersQueryBuilder(branch, agent, status, branches, readAll, searchTerm, queryType).filters
  {
  }

  /** 10^n. */
  function Pow10(n: nat): (r: nat)
    ensures r >= 1
  {
    if n == 0 then 1 else 10 * Pow10(n - 1)
  }

  lemma {:induction false} DigitsValueBound(s: string)
    requires AllDigits(s)
    ensures DigitsValue(s) < Pow10(|s|)
    decreases |s|
  {
    if |s| > 0 {
      DigitsValueBound(s[..|s| - 1]);
    }
  }

  lemma {:induction false} Pow10Add(m: nat, n: nat)
    ensures Pow10(m + n) == Pow10(m) * Pow10(n)
    decreases n
  {
    if n > 0 {
      Pow10Add(m, n - 1);
    }
  }

  lemma {:induction false} Pow10Monotone(m: nat, n: nat)
    requires m <= n
    ensures Pow10(m) <= Pow10(n)
    decreases n
  {
    if m < n {
      Pow10Monotone(m, n - 1);
    }
  }

  /** A term of up to 18 decimal digits always parses, so it is looked up by phone or by uid
      and never by text. */
  lemma {:induction false} ShortNumbersAreNumeric(term: string)
    requires 0 < |term| <= 18 && AllDigits(term)
    ensures ClassifyCustomerSearch(term) == ByPhone || ClassifyCustomerSearch(term) == ByUid
  {
    DigitsValueBound(term);
    Pow10Monotone(|term|, 18);
    assert Pow10(6) == 1_000_000;
    assert Pow10(12) == 1_000_000_000_000 by { Pow10Add(6, 6); }
    assert Pow10(18) == 1_000_000_000_000_000_000 by { Pow10Add(12, 6); }
    assert term[0] != '-' && term[0] != '+';
  }

  /** A phone search term is twelve digits beginning "2547" or "2541": signs and
      non-digits never reach the phone-number match. */
  lemma PhoneSearchIsDigits(term: string)
    requires ClassifyCustomerSearch(term) == ByPhone
    ensures |term| == 12 && AllDigits(term) && (term[..4] == "2547" || term[..4] == "2541")
  {
    assert term[0] == '2';
  }

  /** A term of ASCII letters only never parses as a number, so it is a name search. */
  lemma LettersAreNames(term: string)
    requires |term| > 0 && AllAsciiLetters(term)
    ensures ClassifyCustomerSearch(term) == ByName
  {
    assert !IsDigit(term[0]) && term[0] != '-' && term[0] != '+';
  }

  const UserListColumns: seq<string> := ["u.uid", "u.name", "u.email",
    "DATE_FORMAT(u.join_date, '%Y-%m-%d %H:%i:%s') AS join_date", "ug.name AS user_group",
    "ss.name AS status"]

  const UserListJoins: seq<string> := [
    "o_user_groups ug ON u.user_group = ug.uid",
    "o_staff_statuses ss ON u.status = ss.uid"]

  /** `FindManyUsersQueryBuilder`. */
  function FindManyUsersQueryBuilder(userGroup: int, branch: int, status: int,
                                     searchTerm: string, queryType: string): (r: Query)
    ensures r.table == "o_users u"
    ensures queryType == "count" ==> r.columns == ["u.uid"] && r.joins == []
    ensures queryType != "count" ==> r.columns == UserListColumns && r.joins == UserListJoins
    ensures Equals("u.user_group", IntArg(userGroup)) in r.filters <==> userGroup > 0
    ensures Equals("u.branch", IntArg(branch)) in r.filters <==> branch > 0
    ensures Equals("u.status", IntArg(status)) in r.filters <==> status > 0
    ensures AnyLike(["u.name", "u.email"], Contains(searchTerm)) in r.filters <==> searchTerm != ""
    ensures |r.filters| == Count(userGroup > 0) + Count(branch > 0) + Count(status > 0) + Count(searchTerm != "")
  {
    var columns := if queryType == "count" then ["u.uid"] else UserListColumns;
    var joins := if queryType == "count" then [] else UserListJoins;
    var filters :=
      Optional(userGroup > 0, Equals("u.user_group", IntArg(userGroup)))
      + Optional(branch > 0, Equals("u.branch", IntArg(branch)))
      + Optional(status > 0, Equals("u.status", IntArg(status)))
      + Optional(searchTerm != "", AnyLike(["u.name", "u.email"], Contains(searchTerm)));
    Query("o_users u", columns, joins, filters)
  }

  /** Negative parameters add no filter: only positive ones restrict the list. */
  lemma UserFiltersIgnoreNonPositive(userGroup: int, branch: int, status: int, searchTerm: string, queryType: string)
    requires userGroup <= 0 && branch <= 0 && status <= 0
    ensures FindManyUsersQueryBuilder(userGroup, branch, status, searchTerm, queryType).filters
         == (if searchTerm == "" then [] else [AnyLike(["u.name", "u.email"], Contains(searchTerm))])
  {
  }

  lemma UserCountMatchesPage(userGroup: int, branch: int, status: int, searchTerm: string, queryType: string)
    ensures FindManyUsersQueryBuilder(userGroup, branch, status, searchTerm, "count").filters
         == FindManyUsersQueryBuilder(userGroup, branch, status, searchTerm, queryType).filters
  {
  }
}
