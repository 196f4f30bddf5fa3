/** The customer handlers: `FindCustomerById`, `CreateCustomer` and `UpdateCustomer`. */
module Customers {
  import opened Base
  import opened Utils
  import opened Dates
  import opened Audit
  import opened Records
  import opened Permissions
  import opened Store

  /** A row other than the one with uid `except` (any row when there is none). */
  predicate Other(uid: int, except: Option<int>)
  {
    except.None? || uid != except.value
  }

  predicate MobileInUse(rows: seq<Customer>, mobile: string, except: Option<int>)
  {
    exists i | 0 <= i < |rows| :: rows[i].primaryMobile == mobile && Other(rows[i].uid, except)
  }

  predicate NationalIdInUse(rows: seq<Customer>, nationalId: string, except: Option<int>)
  {
    exists i | 0 <= i < |rows| :: rows[i].nationalId == nationalId && Other(rows[i].uid, except)
  }

  predicate EmailInUse(rows: seq<Customer>, email: string, except: Option<int>)
  {
    exists i | 0 <= i < |rows| :: rows[i].emailAddress == email && Other(rows[i].uid, except)
  }

  /** The uniqueness checks of both handlers: the mobile, and the national id and email
      address when they are not empty, must not belong to another customer. */
  predicate Duplicate(rows: seq<Customer>, mobile: string, nationalId: string, email: string,
                      except: Option<int>)
  {
    || MobileInUse(rows, mobile, except)
    || (nationalId != "" && NationalIdInUse(rows, nationalId, except))
    || (email != "" && EmailInUse(rows, email, except))
  }

  /** The three uniqueness lookups, in order: mobile, then the national id and the email
      address when they are not empty; the first hit stops the handler with 400. */
  method CheckUnique(rows: seq<Customer>, mobile: string, nationalId: string, email: string,
                     except: Option<int>)
    returns (duplicate: bool)
    ensures duplicate == Duplicate(rows, mobile, nationalId, email, except)
  {
    if MobileInUse(rows, mobile, except) {
      return true;
    }
    if nationalId != "" && NationalIdInUse(rows, nationalId, except) {
      return true;
    }
    if email != "" && EmailInUse(rows, email, except) {
      return true;
    }
    return false;
  }

  /** The customer table keeps keys, primary mobiles and non-empty national ids and email
      addresses unique. */
  predicate UniqueCustomers(rows: seq<Customer>)
  {
    && UniqueKeys(CustomerUids(rows))
    && forall i, j | 0 <= i < j < |rows| ::
         && rows[i].primaryMobile != rows[j].primaryMobile
         && (rows[i].nationalId != "" ==> rows[i].nationalId != rows[j].nationalId)
         && (rows[i].emailAddress != "" ==> rows[i].emailAddress != rows[j].emailAddress)
  }

  /** Outside Kenya (country code text other than "254") the phone number provider must be
      given and may not be 1, the Kenyan default. */
  predicate ProviderMissing(countryCode: string, c: Customer)
  {
    countryCode != "254" && (c.phoneNumberProvider == 0 || c.phoneNumberProvider == 1)
  }

  /** The customer with primary key `uid`. */
  function FindCustomer(rows: seq<Customer>, uid: int): Option<Customer>
  {
    First(rows, (x: Customer) => x.uid == uid)
  }

  // ---------------------------------------------------------------------------------------
  // FindCustomerById

  /** The lookup key: the uid when it is not zero, else the primary mobile. */
  predicate MatchesKey(c: Customer, uid: int, mobile: string)
  {
    if uid != 0 then c.uid == uid else c.primaryMobile == mobile
  }

  /** The first customer with the key in a visible branch (any branch with read-all). */
  function FindVisibleCustomer(rows: seq<Customer>, uid: int, mobile: string, branches: seq<int>,
                               readAll: bool): (r: Option<Customer>)
    ensures r.Some? ==> r.value in rows && MatchesKey(r.value, uid, mobile)
                        && (readAll || r.value.branch in branches)
    ensures r.None? ==> forall i | 0 <= i < |rows| ::
                          !MatchesKey(rows[i], uid, mobile) || !(readAll || rows[i].branch in branches)
  {
    First(rows, (x: Customer) => MatchesKey(x, uid, mobile) && (readAll || x.branch in branches))
  }

  /** `FindCustomerById`: a path uid that parses to a non-zero number takes precedence over
      the trimmed `primary_mobile` query parameter; with neither the request is bad. A
      customer outside the user's visible branches is not found, and neither is a row whose
      uid is zero. The stored date of birth and added date are cut to a date and a
      date-time; values too short to cut make the handler panic, which answers 500. */
  method FindCustomerById(db: Database, user: User, uidParam: string, mobileParam: string)
    returns (code: int, found: Option<Customer>)
    ensures var uid := ParamToIntWithDefault(uidParam, 0);
            var mobile := TrimSpace(mobileParam);
            var readAll := db.Allowed(user.uid, "o_customers", 0, "read_");
            var hit := FindVisibleCustomer(db.customers, uid, mobile,
                                           VisibleBranches(db.staff, user, readAll), readAll);
            && (uid == 0 && mobile == "" ==> code == 400)
            && (uid != 0 || mobile != "" ==>
                  && (hit.None? || hit.value.uid == 0 ==> code == 404)
                  && (hit.Some? && hit.value.uid != 0 ==>
                        if |hit.value.dob| >= 10 && |hit.value.addedDate| >= 19
                        then code == 200 && found == Some(hit.value.(dob := DateFormatter(hit.value.dob),
                                                                      addedDate := DatetimeFormatter(hit.value.addedDate)))
                        else code == 500))
    ensures code == 200 <==> found.Some?
  {
    found := None;
    var uid := ParamToIntWithDefault(uidParam, 0);
    var mobile := TrimSpace(mobileParam);
    var readAll := db.Allowed(user.uid, "o_customers", 0, "read_");
    var branches := GetBranches(db.staff, user, readAll);
    if uid == 0 && mobile == "" {
      return 400, None;
    }
    var hit := FindVisibleCustomer(db.customers, uid, mobile, branches, readAll);
    if hit.None? || hit.value.uid == 0 {
      return 404, None;
    }
    var result := hit.value;
    if |result.dob| < 10 || |result.addedDate| < 19 {
      return 500, None;
    }
    result := result.(dob := DateFormatter(result.dob));
    result := result.(addedDate := DatetimeFormatter(result.addedDate));
    return 200, Some(result);
  }

  /** A non-zero uid decides the lookup alone: the mobile parameter is ignored. */
  lemma UidTakesPrecedence(rows: seq<Customer>, uid: int, m1: string, m2: string, branches: seq<int>, readAll: bool)
    requires uid != 0
    ensures FindVisibleCustomer(rows, uid, m1, branches, readAll) == FindVisibleCustomer(rows, uid, m2, branches, readAll)
  {
    assert forall x :: MatchesKey(x, uid, m1) == MatchesKey(x, uid, m2);
    FirstSamePredicate(rows, (x: Customer) => MatchesKey(x, uid, m1) && (readAll || x.branch in branches),
                       (x: Customer) => MatchesKey(x, uid, m2) && (readAll || x.branch in branches));
  }

  lemma {:induction false} FirstSamePredicate<T>(rows: seq<T>, p: T -> bool, q: T -> bool)
    requires forall x :: p(x) == q(x)
    ensures First(rows, p) == First(rows, q)
  {
    if |rows| > 0 {
      FirstSamePredicate(rows[1..], p, q);
    }
  }

  // ---------------------------------------------------------------------------------------
  // CreateCustomer

  /** The row `CreateCustomer` inserts, before column defaults: the normalized mobile and
      its hash, trimmed national id, email, name, address and location, the date of birth
      cut to a date, the acting user as both creator and current agent, and the creation
      time. */
  function PreparedCustomer(c: Customer, cc: int, sha256: string -> string, user: User, now: string): (r: Customer)
    requires |c.dob| >= 10
    ensures r.primaryMobile == MakePhoneValid(c.primaryMobile, cc)
    ensures r.encPhone == sha256(r.primaryMobile)
    ensures r.addedBy == user.uid && r.currentAgent == user.uid
  {
    var mobile := MakePhoneValid(c.primaryMobile, cc);
    c.(primaryMobile := mobile, nationalId := TrimSpace(c.nationalId),
       emailAddress := TrimSpace(c.emailAddress), fullName := TrimSpace(c.fullName),
       physicalAddress := TrimSpace(c.physicalAddress), geolocation := TrimSpace(c.geolocation),
       encPhone := sha256(mobile), dob := DateFormatter(c.dob), addedBy := user.uid,
       currentAgent := user.uid, addedDate := now)
  }

  /** The status code of `CreateCustomer` for a bound input: the settings, the provider rule
      and the uniqueness rules give the errors, in that order; a short date of birth makes
      the handler panic and an already-used client-supplied uid makes the insert fail. */
  function CreateCustomerStatus(rows: seq<Customer>, config: Config, c: Customer): (code: int)
    ensures config.countryCode.None? ==> code == 500
    ensures config.countryCode.Some? && ProviderMissing(config.countryCode.value, c) ==> code == 400
    ensures code == 200 ==> !Duplicate(rows, MakePhoneValid(c.primaryMobile, config.cc),
                                       TrimSpace(c.nationalId), TrimSpace(c.emailAddress), None)
    ensures code == 200 ==> |c.dob| >= 10 && AssignUid(c.uid, CustomerUids(rows)).Some?
    ensures code in {200, 400, 500}
    ensures code == 200 <==> (&& config.countryCode.Some? && !ProviderMissing(config.countryCode.value, c)
                              && !Duplicate(rows, MakePhoneValid(c.primaryMobile, config.cc),
                                            TrimSpace(c.nationalId), TrimSpace(c.emailAddress), None)
                              && |c.dob| >= 10 && AssignUid(c.uid, CustomerUids(rows)).Some?)
  {
    if config.countryCode.None? then 500
    else if ProviderMissing(config.countryCode.value, c) then 400
    else NewCustomerStatus(rows, c, MakePhoneValid(c.primaryMobile, config.cc), TrimSpace(c.nationalId),
                           TrimSpace(c.emailAddress))
  }

  /** The rest of `CreateCustomerStatus` once the mobile is normalized and the national id
      and e-mail are trimmed. */
  function NewCustomerStatus(rows: seq<Customer>, c: Customer, mobile: string, nationalId: string,
                             email: string): int
  {
    if Duplicate(rows, mobile, nationalId, email, None) then 400
    else if |c.dob| < 10 then 500
    else if AssignUid(c.uid, CustomerUids(rows)).None? then 500
    else 200
  }

  /** The checks and normalization steps of `CreateCustomer`, up to the insert: the status
      code and, when every check passes, the row to insert with its key. */
  method PrepareNewCustomer(rows: seq<Customer>, config: Config, sha256: string -> string, user: User,
                            input: Customer, now: string)
    returns (code: int, row: Customer)
    ensures code == CreateCustomerStatus(rows, config, input)
    ensures code == 200 ==>
              && |input.dob| >= 10 && AssignUid(input.uid, CustomerUids(rows)).Some?
              && row == CustomerDefaults(PreparedCustomer(input, config.cc, sha256, user, now),
                                         AssignUid(input.uid, CustomerUids(rows)).value)
  {
    row := input;
    code := CheckNewCustomer(rows, config, input);
    if code == 200 {
      row := CustomerDefaults(PreparedCustomer(input, config.cc, sha256, user, now),
                              AssignUid(input.uid, CustomerUids(rows)).value);
    }
  }

  /** The checks of `CreateCustomer`, in order. */
  method CheckNewCustomer(rows: seq<Customer>, config: Config, input: Customer) returns (code: int)
    ensures code == CreateCustomerStatus(rows, config, input)
  {
    if config.countryCode.None? {
      return 500;
    }
    if config.countryCode.value != "254" {
      if input.phoneNumberProvider == 0 || input.phoneNumberProvider == 1 {
        return 400;
      }
    }
    var primaryMobile := MakePhoneValid(input.primaryMobile, config.cc);
    var nationalId := TrimSpace(input.nationalId);
    var emailAddress := TrimSpace(input.emailAddress);
    code := CheckPreparedCustomer(rows, input, primaryMobile, nationalId, emailAddress);
  }

  /** The checks of `CreateCustomer` on the normalized mobile and the trimmed national id and
      e-mail: duplicates, then the date of birth, then the key. */
  method CheckPreparedCustomer(rows: seq<Customer>, input: Customer, primaryMobile: string, nationalId: string,
                               emailAddress: string) returns (code: int)
    ensures code == NewCustomerStatus(rows, input, primaryMobile, nationalId, emailAddress)
  {
    var duplicate := CheckUnique(rows, primaryMobile, nationalId, emailAddress, None);
    if duplicate {
      return 400;
    }
    if |input.dob| < 10 {
      // DateFormatter's slice panics; the recovery middleware answers 500
      return 500;
    }
    var uid := AssignUid(input.uid, CustomerUids(rows));
    if uid.None? {
      return 500;
    }
    return 200;
  }

  /** `CreateCustomer`. Only a successful call changes the customer table, by appending the
      prepared row with its column defaults and key. */
  method CreateCustomer(db: Database, config: Config, crypto: Crypto, user: User,
                        input: Option<Customer>, now: string)
    returns (code: int)
    modifies db`customers
    ensures input.None? ==> code == 400
    ensures input.Some? ==> code == CreateCustomerStatus(old(db.customers), config, input.value)
    ensures code == 200 ==>
              && input.Some? && |input.value.dob| >= 10
              && AssignUid(input.value.uid, CustomerUids(old(db.customers))).Some?
              && db.customers == old(db.customers)
                   + [CustomerDefaults(PreparedCustomer(input.value, config.cc, crypto.sha256, user, now),
                                       AssignUid(input.value.uid, CustomerUids(old(db.customers))).value)]
    ensures code != 200 ==> db.customers == old(db.customers)
    ensures UniqueCustomers(old(db.customers)) ==> UniqueCustomers(db.customers)
  {
    if input.None? {
      return 400;
    }
    var row;
    code, row := PrepareNewCustomer(db.customers, config, crypto.sha256, user, input.value, now);
    if code != 200 {
      return;
    }
    InsertKeepsUnique(db.customers, row);
    db.customers := db.customers + [row];
  }

  /** Appending a row that passed the uniqueness checks, under a fresh key, keeps the table
      unique. */
  lemma InsertKeepsUnique(rows: seq<Customer>, row: Customer)
    requires !Duplicate(rows, row.primaryMobile, row.nationalId, row.emailAddress, None)
    requires row.uid !in CustomerUids(rows)
    ensures UniqueCustomers(rows) ==> UniqueCustomers(rows + [row])
  {
    if UniqueCustomers(rows) {
      UniqueKeysAppend(CustomerUids(rows), row.uid);
      assert CustomerUids(rows + [row]) == CustomerUids(rows) + [row.uid];
      var all := rows + [row];
      forall i, j | 0 <= i < j < |all|
        ensures all[i].primaryMobile != all[j].primaryMobile
        ensures all[i].nationalId != "" ==> all[i].nationalId != all[j].nationalId
        ensures all[i].emailAddress != "" ==> all[i].emailAddress != all[j].emailAddress
      {
        if j == |rows| {
          assert all[i] == rows[i];
        }
      }
    }
  }

  // ---------------------------------------------------------------------------------------
  // UpdateCustomer

  /** The status rules: setting BLOCKED needs `block_`, BLOCKED back to ACTIVE needs
      `unblock_`, and any other change of status needs `update_`. */
  predicate StatusChangeAllowed(db: Database, user: User, current: int, incoming: int)
    reads db`users, db`grants
  {
    if incoming == Blocked then db.Allowed(user.uid, "o_customers", 0, "block_")
    else if incoming == Active && current == Blocked then db.Allowed(user.uid, "o_customers", 0, "unblock_")
    else incoming != current ==> db.Allowed(user.uid, "o_customers", 0, "update_")
  }

  /** The first loan of the customer, in table order. */
  function FirstLoan(loans: seq<Loan>, customerId: int): Option<Loan>
  {
    First(loans, (l: Loan) => l.customerId == customerId)
  }

  /** The customer has an existing loan: the first loan found has a non-zero uid. */
  predicate HasLoan(loans: seq<Loan>, customerId: int)
  {
    FirstLoan(loans, customerId).Some? && FirstLoan(loans, customerId).value.uid != 0
  }

  /** The status permission step of `UpdateCustomer`. */
  method CheckStatusChange(db: Database, user: User, current: int, incoming: int) returns (allowed: bool)
    ensures allowed == StatusChangeAllowed(db, user, current, incoming)
  {
    if incoming == Blocked {
      allowed := db.Allowed(user.uid, "o_customers", 0, "block_");
    } else if incoming == Active && current == Blocked {
      allowed := db.Allowed(user.uid, "o_customers", 0, "unblock_");
    } else if incoming != current {
      allowed := db.Allowed(user.uid, "o_customers", 0, "update_");
    } else {
      allowed := true;
    }
  }

  /** The rules for a changed primary mobile: an active customer's number needs `update_`
      on contacts (403), and a customer with a loan keeps the number (400); 200 when the
      mobile is unchanged or both rules pass. */
  method CheckMobileChange(db: Database, user: User, existing: Customer, mobile: string, uid: int)
    returns (code: int)
    ensures code == MobileChangeStatus(db, user, existing, mobile, uid)
  {
    if mobile != existing.primaryMobile {
      if existing.status == Active && !db.Allowed(user.uid, "o_customer_contacts", 0, "update_") {
        return 403;
      }
      if HasLoan(db.loans, uid) {
        return 400;
      }
    }
    return 200;
  }

  function MobileChangeStatus(db: Database, user: User, existing: Customer, mobile: string, uid: int): int
    reads db`users, db`grants, db`loans
  {
    if mobile == existing.primaryMobile then 200
    else if existing.status == Active && !db.Allowed(user.uid, "o_customer_contacts", 0, "update_") then 403
    else if HasLoan(db.loans, uid) then 400
    else 200
  }

  /** The status code of the first check `UpdateCustomer` fails before writing, or 200. */
  function UpdateCustomerStatus(db: Database, config: Config, user: User, c: Customer): int
    reads db`users, db`grants, db`customers, db`loans
  {
    if config.countryCode.None? then 500
    else if ProviderMissing(config.countryCode.value, c) then 400
    else if !db.Allowed(user.uid, "o_customers", 0, "update_") then 403
    else if db.recordLoadFails then 500
    else match FindCustomer(db.customers, c.uid)
      case None => 404
      case Some(existing) => ChangeStatus(db, config, user, existing, c)
  }

  /** The status code of the checks `UpdateCustomer` makes against the stored row, or 200. */
  function ChangeStatus(db: Database, config: Config, user: User, existing: Customer, c: Customer): int
    reads db`users, db`grants, db`customers, db`loans
  {
    PreparedChangeStatus(db, config.cc, user, existing, c, MakePhoneValid(c.primaryMobile, config.cc),
                         TrimSpace(c.nationalId), TrimSpace(c.emailAddress))
  }

  /** `ChangeStatus` once the mobile is normalized and the national id and email address
      are trimmed. */
  function PreparedChangeStatus(db: Database, cc: int, user: User, existing: Customer, c: Customer,
                                mobile: string, nationalId: string, emailAddress: string): int
    reads db`users, db`grants, db`customers, db`loans
  {
    if !StatusChangeAllowed(db, user, existing.status, c.status) then 403
    else if !IsPhoneValid(mobile, cc) then 400
    else if MobileChangeStatus(db, user, existing, mobile, c.uid) != 200 then
      MobileChangeStatus(db, user, existing, mobile, c.uid)
    else if Duplicate(db.customers, mobile, nationalId, emailAddress, Some(c.uid)) then 400
    else if FormatDate(c.dob, 10).Err? then 400
    else 200
  }

  /** The struct `UpdateCustomer` writes: the normalized mobile and its hash, and the
      trimmed national id and email address. */
  function UpdatedCustomer(c: Customer, cc: int, sha256: string -> string): (r: Customer)
    ensures r.primaryMobile == MakePhoneValid(c.primaryMobile, cc) && r.encPhone == sha256(r.primaryMobile)
    ensures r.uid == c.uid && r.status == c.status && r.dob == c.dob
  {
    var mobile := MakePhoneValid(c.primaryMobile, cc);
    c.(primaryMobile := mobile, encPhone := sha256(mobile), nationalId := TrimSpace(c.nationalId),
       emailAddress := TrimSpace(c.emailAddress))
  }

  /** `Updates` on the rows with the given uid. */
  function UpdateRows(rows: seq<Customer>, uid: int, c: Customer): (r: seq<Customer>)
    ensures |r| == |rows|
    ensures forall i | 0 <= i < |rows| :: r[i] == (if rows[i].uid == uid then MergeCustomer(rows[i], c) else rows[i])
  {
    seq(|rows|, i requires 0 <= i < |rows| => if rows[i].uid == uid then MergeCustomer(rows[i], c) else rows[i])
  }

  const CustomerIgnored: seq<string> := ["UID", "CurrentAgent", "AddedBy", "Geolocation", "AddedDate", "EncPhone"]

  /** `UpdateCustomer`. When every check passes the row is updated; the stored date of
      birth of the original is then cut to ten characters, which panics (answering 500 after
      the write and without an event) when it is shorter; otherwise one change-log event is
      written. Every other outcome changes nothing. */
  method UpdateCustomer(db: Database, config: Config, crypto: Crypto, user: User, input: Option<Customer>)
    returns (code: int)
    modifies db`customers, db`events
    ensures input.None? ==> code == 400
    ensures input.Some? && old(UpdateCustomerStatus(db, config, user, input.value)) != 200 ==>
              code == old(UpdateCustomerStatus(db, config, user, input.value))
    ensures input.None? || old(UpdateCustomerStatus(db, config, user, input.value)) != 200 ==>
              db.customers == old(db.customers) && db.events == old(db.events)
    ensures input.Some? && old(UpdateCustomerStatus(db, config, user, input.value)) == 200 ==>
              var c := input.value;
              var existing := FindCustomer(old(db.customers), c.uid).value;
              var updated := UpdatedCustomer(c, config.cc, crypto.sha256);
              && db.customers == UpdateRows(old(db.customers), c.uid, updated)
              && (|existing.dob| < 10 ==> code == 500 && db.events == old(db.events))
              && (|existing.dob| >= 10 ==>
                    && code == 200
                    && |db.events| == |old(db.events)| + 1
                    && db.events[..|old(db.events)|] == old(db.events)
                    && LogsUpdate(db.events[|old(db.events)|], "o_customers", "Customer", c.uid, c.uid, user,
                                  CustomerSnapshot(existing.(dob := existing.dob[..10])),
                                  CustomerSnapshot(updated), CustomerIgnored))
    ensures UniqueCustomers(old(db.customers)) ==> UniqueCustomers(db.customers)
  {
    if input.None? {
      return 400;
    }
    var c := input.value;
    var existing, updated;
    code, existing, updated := CheckUpdate(db, config, crypto.sha256, user, c);
    if code != 200 {
      return;
    }
    UpdateKeepsUnique(db.customers, existing, updated);
    db.customers := UpdateRows(db.customers, c.uid, updated);
    if |existing.dob| < 10 {
      // the slice of the original's date of birth panics after the write
      return 500;
    }
    var original := existing.(dob := existing.dob[..10]);
    db.CreateChangesLog("update", "o_customers", "Customer", c.uid, c.uid,
                        CustomerSnapshot(original), CustomerSnapshot(updated), user, CustomerIgnored);
    return 200;
  }

  /** The checks of `UpdateCustomer`, in order, up to the write: the status code, the stored
      row and the struct to write. */
  method CheckUpdate(db: Database, config: Config, sha256: string -> string, user: User, c: Customer)
    returns (code: int, existing: Customer, updated: Customer)
    ensures code == UpdateCustomerStatus(db, config, user, c)
    ensures code == 200 ==>
              && FindCustomer(db.customers, c.uid) == Some(existing)
              && updated == UpdatedCustomer(c, config.cc, sha256)
              && existing in db.customers && existing.uid == c.uid && |updated.primaryMobile| == 12
              && !Duplicate(db.customers, updated.primaryMobile, updated.nationalId, updated.emailAddress, Some(c.uid))
  {
    existing, updated := c, c;
    if config.countryCode.None? {
      return 500, existing, updated;
    }
    if config.countryCode.value != "254" {
      if c.phoneNumberProvider == 0 || c.phoneNumberProvider == 1 {
        return 400, existing, updated;
      }
    }
    if !db.Allowed(user.uid, "o_customers", 0, "update_") {
      return 403, existing, updated;
    }
    if db.recordLoadFails {
      return 500, existing, updated;
    }
    var found := FindCustomer(db.customers, c.uid);
    if found.None? {
      return 404, existing, updated;
    }
    existing := found.value;
    code := CheckChange(db, config, user, existing, c);
    if code == 200 {
      assert IsPhoneValid(MakePhoneValid(c.primaryMobile, config.cc), config.cc);
      updated := UpdatedCustomer(c, config.cc, sha256);
    }
  }

  /** The checks against the stored row, in order: the status rules, the phone format, the
      mobile-change rules, uniqueness and the date of birth. */
  method CheckChange(db: Database, config: Config, user: User, existing: Customer, c: Customer)
    returns (code: int)
    ensures code == ChangeStatus(db, config, user, existing, c)
  {
    var mobile := MakePhoneValid(c.primaryMobile, config.cc);
    var nationalId := TrimSpace(c.nationalId);
    var emailAddress := TrimSpace(c.emailAddress);
    code := CheckPreparedChange(db, config.cc, user, existing, c, mobile, nationalId, emailAddress);
  }

  /** The checks of `CheckChange` on the normalized mobile and the trimmed national id and
      email address. */
  method CheckPreparedChange(db: Database, cc: int, user: User, existing: Customer, c: Customer,
                             mobile: string, nationalId: string, emailAddress: string)
    returns (code: int)
    ensures code == PreparedChangeStatus(db, cc, user, existing, c, mobile, nationalId, emailAddress)
  {
    var statusAllowed := CheckStatusChange(db, user, existing.status, c.status);
    if !statusAllowed {
      return 403;
    }
    if !IsPhoneValid(mobile, cc) {
      return 400;
    }
    var mobileCode := CheckMobileChange(db, user, existing, mobile, c.uid);
    if mobileCode != 200 {
      return mobileCode;
    }
    var duplicate := CheckUnique(db.customers, mobile, nationalId, emailAddress, Some(c.uid));
    if duplicate {
      return 400;
    }
    // the parsed date is written back unchanged
    var dob := FormatDate(c.dob, 10);
    if dob.Err? {
      return 400;
    }
    return 200;
  }

  /** Updating the row of an existing customer with a struct that passed the uniqueness
      checks (and carries a non-empty mobile) keeps the table unique. */
  lemma UpdateKeepsUnique(rows: seq<Customer>, existing: Customer, c: Customer)
    requires existing in rows && existing.uid == c.uid && c.primaryMobile != ""
    requires !Duplicate(rows, c.primaryMobile, c.nationalId, c.emailAddress, Some(c.uid))
    ensures UniqueCustomers(rows) ==> UniqueCustomers(UpdateRows(rows, c.uid, c))
  {
    if UniqueCustomers(rows) {
      var all := UpdateRows(rows, c.uid, c);
      assert CustomerUids(all) == CustomerUids(rows) by {
        forall i | 0 <= i < |rows| ensures all[i].uid == rows[i].uid { }
      }
      forall i, j | 0 <= i < j < |all|
        ensures all[i].primaryMobile != all[j].primaryMobile
        ensures all[i].nationalId != "" ==> all[i].nationalId != all[j].nationalId
        ensures all[i].emailAddress != "" ==> all[i].emailAddress != all[j].emailAddress
      {
        assert !(rows[i].uid == c.uid && rows[j].uid == c.uid) by {
          assert CustomerUids(rows)[i] == rows[i].uid && CustomerUids(rows)[j] == rows[j].uid;
        }
      }
    }
  }

  /** Without `update_` on customers the update is refused before the customer is looked
      up: the answer does not depend on the customer table. */
  lemma UpdateNeedsPermissionFirst(db: Database, config: Config, user: User, c: Customer)
    requires config.countryCode.Some? && !ProviderMissing(config.countryCode.value, c)
    requires !db.Allowed(user.uid, "o_customers", 0, "update_")
    ensures UpdateCustomerStatus(db, config, user, c) == 403
  {
  }

  /** A successful update respects the status rules and, for a changed mobile, the
      contact-permission and existing-loan rules. */
  lemma UpdateRulesHold(db: Database, config: Config, user: User, c: Customer)
    requires UpdateCustomerStatus(db, config, user, c) == 200
    ensures FindCustomer(db.customers, c.uid).Some?
    ensures var existing := FindCustomer(db.customers, c.uid).value;
            var mobile := MakePhoneValid(c.primaryMobile, config.cc);
            && (c.status == Blocked ==> db.Allowed(user.uid, "o_customers", 0, "block_"))
            && (c.status == Active && existing.status == Blocked ==> db.Allowed(user.uid, "o_customers", 0, "unblock_"))
            && (mobile != existing.primaryMobile ==>
                  (existing.status == Active ==> db.Allowed(user.uid, "o_customer_contacts", 0, "update_"))
                  && !HasLoan(db.loans, c.uid))
            && IsPhoneValid(mobile, config.cc)
            && !Duplicate(db.customers, mobile, TrimSpace(c.nationalId), TrimSpace(c.emailAddress), Some(c.uid))
  {
  }

  /** The `update_` test for "other" status changes can never refuse: `update_` was already
      required before the customer was loaded. */
  lemma OtherStatusChangeAlreadyAllowed(db: Database, user: User, current: int, incoming: int)
    requires db.Allowed(user.uid, "o_customers", 0, "update_")
    ensures StatusChangeAllowed(db, user, current, incoming) <==>
            (incoming == Blocked ==> db.Allowed(user.uid, "o_customers", 0, "block_"))
            && (incoming == Active && current == Blocked ==> db.Allowed(user.uid, "o_customers", 0, "unblock_"))
  {
  }

  /** Re-submitting a customer's own mobile, national id and email never trips the
      uniqueness checks, because they exclude the customer's own uid. */
  lemma {:induction false} OwnValuesAreNoDuplicate(rows: seq<Customer>, k: int)
    requires UniqueCustomers(rows) && 0 <= k < |rows|
    ensures !Duplicate(rows, rows[k].primaryMobile, rows[k].nationalId, rows[k].emailAddress, Some(rows[k].uid))
  {
    forall i | 0 <= i < |rows| && i != k
      ensures rows[i].primaryMobile != rows[k].primaryMobile
      ensures rows[k].nationalId != "" ==> rows[i].nationalId != rows[k].nationalId
      ensures rows[k].emailAddress != "" ==> rows[i].emailAddress != rows[k].emailAddress
    {
      if i < k {
        assert rows[i].primaryMobile != rows[k].primaryMobile;
      } else {
        assert rows[k].primaryMobile != rows[i].primaryMobile;
      }
    }
  }
}
