/** The customer contact handlers: `CreateCustomerContact`, `UpdateCustomerContact` and the
    query of `GetCustomerContacts`. A contact is an alternative phone (types 1 and 2) or an
    alternative email address (type 3) of a customer. */
module Contacts {
  import opened Base
  import opened Utils
  import opened Audit
  import opened Records
  import opened Permissions
  import opened Store
  import opened Queries
  import opened Customers

  predicate IsPhoneType(contactType: int)
  {
    contactType == AlternativePhone1 || contactType == AlternativePhone2
  }

  predicate IsEmailType(contactType: int)
  {
    contactType == AlternativeEmail1
  }

  /** The binding rules of the contact struct: a positive customer id, a type of 1, 2 or 3,
      a non-empty value of at most 250 characters, a hash of at most 100 characters when
      present, and a status of 0 or 1. */
  predicate ContactBinds(c: Contact)
  {
    && c.customerId > 0
    && (c.contactType == 1 || c.contactType == 2 || c.contactType == 3)
    && c.value != "" && |c.value| <= 250
    && (c.encPhone.Some? ==> |c.encPhone.value| <= 100)
    && (c.status == 0 || c.status == 1)
  }

  /** A contact other than `except` already holds `value`. */
  predicate ValueInUse(rows: seq<Contact>, value: string, except: Option<int>)
  {
    exists i | 0 <= i < |rows| :: rows[i].value == value && Other(rows[i].uid, except)
  }

  /** The value the checks use: the trimmed value, normalized when it is a phone. */
  function CheckedValue(c: Contact, cc: int): (r: string)
    ensures !IsPhoneType(c.contactType) ==> r == TrimSpace(c.value)
  {
    if IsPhoneType(c.contactType) then MakePhoneValid(TrimSpace(c.value), cc) else TrimSpace(c.value)
  }

  /** The format rule: a phone must be valid after normalization, an email well formed. */
  predicate WellFormedValue(contactType: int, value: string, cc: int)
  {
    && (IsPhoneType(contactType) ==> IsPhoneValid(value, cc))
    && (IsEmailType(contactType) ==> IsValidEmail(value))
  }

  /** The duplicate rule: a phone may not be another customer's primary mobile, an email
      not another customer's email address, and neither may be another contact's value. */
  predicate ValueTaken(customers: seq<Customer>, contacts: seq<Contact>, contactType: int, value: string,
                      exceptCustomer: Option<int>, exceptContact: Option<int>)
  {
    || (IsPhoneType(contactType) &&
         (MobileInUse(customers, value, exceptCustomer) || ValueInUse(contacts, value, exceptContact)))
    || (IsEmailType(contactType) &&
         (EmailInUse(customers, value, exceptCustomer) || ValueInUse(contacts, value, exceptContact)))
  }

  /** The stored hash: SHA-256 of a phone, the empty string for an email. */
  function ContactHash(contactType: int, value: string, sha256: string -> string): (r: Option<string>)
    ensures r.Some?
    ensures !IsPhoneType(contactType) ==> r == Some("")
  {
    if IsPhoneType(contactType) then Some(sha256(value)) else Some("")
  }

  /** The lookups against the customer table and the contact table, in the handler's order. */
  method CheckValueTaken(customers: seq<Customer>, contacts: seq<Contact>, contactType: int, value: string,
                         exceptCustomer: Option<int>, exceptContact: Option<int>)
    returns (taken: bool)
    ensures taken == ValueTaken(customers, contacts, contactType, value, exceptCustomer, exceptContact)
  {
    if IsPhoneType(contactType) {
      if MobileInUse(customers, value, exceptCustomer) {
        return true;
      }
      if ValueInUse(contacts, value, exceptContact) {
        return true;
      }
    }
    if IsEmailType(contactType) {
      if EmailInUse(customers, value, exceptCustomer) {
        return true;
      }
      if ValueInUse(contacts, value, exceptContact) {
        return true;
      }
    }
    return false;
  }

  /** The contact table keeps unique keys and unique values. */
  predicate UniqueContacts(rows: seq<Contact>)
  {
    && UniqueKeys(ContactUids(rows))
    && forall i, j | 0 <= i < j < |rows| :: rows[i].value != rows[j].value
  }

  // ---------------------------------------------------------------------------------------
  // CreateCustomerContact

  /** The status code of `CreateCustomerContact` for a decoded input, given whether the user
      holds `create_` on contacts: binding, format, permission, then duplicates. */
  function CreateContactStatus(customers: seq<Customer>, contacts: seq<Contact>, cc: int, allowed: bool,
                               c: Contact): (code: int)
    ensures code == 200 || code == 400 || code == 403
    ensures code == 200 <==> ContactBinds(c) && WellFormedValue(c.contactType, CheckedValue(c, cc), cc)
                              && allowed
                              && !ValueTaken(customers, contacts, c.contactType, CheckedValue(c, cc), None, None)
    ensures code == 403 <==> ContactBinds(c) && WellFormedValue(c.contactType, CheckedValue(c, cc), cc) && !allowed
  {
    var value := CheckedValue(c, cc);
    if !ContactBinds(c) then 400
    else if !WellFormedValue(c.contactType, value, cc) then 400
    else if !allowed then 403
    else if ValueTaken(customers, contacts, c.contactType, value, None, None) then 400
    else 200
  }

  /** The row `CreateCustomerContact` inserts: only the customer, type and checked value are
      taken from the input; the hash, the time of the request, the next key and the default
      status 1 complete it. */
  function NewContact(contacts: seq<Contact>, c: Contact, cc: int, sha256: string -> string, now: string): (r: Contact)
    ensures r.uid !in ContactUids(contacts) && r.status == 1
    ensures r.customerId == c.customerId && r.contactType == c.contactType
    ensures r.value == CheckedValue(c, cc) && r.lastUpdate == now
  {
    var value := CheckedValue(c, cc);
    ContactDefaults(Contact(0, c.customerId, c.contactType, value, ContactHash(c.contactType, value, sha256), now, 0),
                    NextUid(ContactUids(contacts)))
  }

  /** The steps of `CreateCustomerContact` up to the insert. */
  method PrepareNewContact(db: Database, cc: int, sha256: string -> string, user: User, input: Contact, now: string)
    returns (code: int, row: Contact)
    ensures code == CreateContactStatus(db.customers, db.contacts, cc,
                                        db.Allowed(user.uid, "o_customer_contacts", 0, "create_"), input)
    ensures code == 200 ==> row == NewContact(db.contacts, input, cc, sha256, now)
  {
    row := input;
    if !ContactBinds(input) {
      return 400, row;
    }
    var contactValue := TrimSpace(input.value);
    var isPhone, isEmail := false, false;
    var contactType := input.contactType;
    if contactType == AlternativePhone1 || contactType == AlternativePhone2 {
      contactValue := MakePhoneValid(contactValue, cc);
      if !IsPhoneValid(contactValue, cc) {
        return 400, row;
      }
      isPhone := true;
    }
    if contactType == AlternativeEmail1 {
      if !IsValidEmail(contactValue) {
        return 400, row;
      }
      isEmail := true;
    }
    if !db.Allowed(user.uid, "o_customer_contacts", 0, "create_") {
      return 403, row;
    }
    var taken := CheckValueTaken(db.customers, db.contacts, contactType, contactValue, None, None);
    if taken {
      return 400, row;
    }
    var contactValueHash := "";
    if isPhone {
      contactValueHash := sha256(contactValue);
    }
    row := Contact(0, input.customerId, contactType, contactValue, Some(contactValueHash), now, 0);
    row := ContactDefaults(row, NextUid(ContactUids(db.contacts)));
    return 200, row;
  }

  /** `CreateCustomerContact`. Only a successful call changes the contact table, by appending
      the new row. */
  method CreateCustomerContact(db: Database, config: Config, crypto: Crypto, user: User,
                               input: Option<Contact>, now: string)
    returns (code: int)
    modifies db`contacts
    ensures input.None? ==> code == 400
    ensures input.Some? ==>
              code == CreateContactStatus(old(db.customers), old(db.contacts), config.cc,
                                          old(db.Allowed(user.uid, "o_customer_contacts", 0, "create_")),
                                          input.value)
    ensures code == 200 ==>
              input.Some? && db.contacts == old(db.contacts) + [NewContact(old(db.contacts), input.value, config.cc, crypto.sha256, now)]
    ensures code != 200 ==> db.contacts == old(db.contacts)
    ensures UniqueContacts(old(db.contacts)) ==> UniqueContacts(db.contacts)
  {
    if input.None? {
      return 400;
    }
    var row;
    code, row := PrepareNewContact(db, config.cc, crypto.sha256, user, input.value, now);
    if code != 200 {
      return;
    }
    NewContactKeepsUnique(db.customers, db.contacts, input.value, config.cc, crypto.sha256, now);
    db.contacts := db.contacts + [row];
  }

  /** A created contact's value is new to the contact table, so the table stays unique. */
  lemma NewContactKeepsUnique(customers: seq<Customer>, contacts: seq<Contact>, c: Contact, cc: int,
                              sha256: string -> string, now: string)
    requires ContactBinds(c)
    requires !ValueTaken(customers, contacts, c.contactType, CheckedValue(c, cc), None, None)
    ensures UniqueContacts(contacts) ==> UniqueContacts(contacts + [NewContact(contacts, c, cc, sha256, now)])
  {
    var row := NewContact(contacts, c, cc, sha256, now);
    assert !ValueInUse(contacts, row.value, None);
    AppendContactKeepsUnique(contacts, row);
  }

  /** Appending a row with a fresh key and a value no row holds keeps the table unique. */
  lemma AppendContactKeepsUnique(rows: seq<Contact>, row: Contact)
    requires row.uid !in ContactUids(rows) && !ValueInUse(rows, row.value, None)
    ensures UniqueContacts(rows) ==> UniqueContacts(rows + [row])
  {
    if UniqueContacts(rows) {
      UniqueKeysAppend(ContactUids(rows), row.uid);
      assert ContactUids(rows + [row]) == ContactUids(rows) + [row.uid];
      var all := rows + [row];
      forall i, j | 0 <= i < j < |all| ensures all[i].value != all[j].value
      {
        if j == |rows| {
          assert all[i] == rows[i];
        }
      }
    }
  }

  /** A created phone contact never repeats a customer's primary mobile, and a created
      email contact never repeats a customer's email address. */
  lemma CreatedValueIsNewToCustomers(customers: seq<Customer>, contacts: seq<Contact>, cc: int, allowed: bool,
                                     c: Contact, i: int)
    requires CreateContactStatus(customers, contacts, cc, allowed, c) == 200 && 0 <= i < |customers|
    ensures IsPhoneType(c.contactType) ==> customers[i].primaryMobile != CheckedValue(c, cc)
    ensures IsEmailType(c.contactType) ==> customers[i].emailAddress != CheckedValue(c, cc)
  {
  }

  // ---------------------------------------------------------------------------------------
  // UpdateCustomerContact

  /** The status code of `UpdateCustomerContact` before the original row is loaded. The
      duplicate checks exclude the contact's own customer and the contact itself. */
  function UpdateContactStatus(customers: seq<Customer>, contacts: seq<Contact>, cc: int, allowed: bool,
                               c: Contact): (code: int)
    ensures code == 200 <==> ContactBinds(c) && WellFormedValue(c.contactType, CheckedValue(c, cc), cc)
                              && allowed
                              && !ValueTaken(customers, contacts, c.contactType, CheckedValue(c, cc),
                                             Some(c.customerId), Some(c.uid))
    ensures code == 403 <==> ContactBinds(c) && WellFormedValue(c.contactType, CheckedValue(c, cc), cc) && !allowed
    ensures code == 200 || code == 400 || code == 403
  {
    CheckedUpdateStatus(customers, contacts, cc, allowed, c, CheckedValue(c, cc))
  }

  /** `UpdateContactStatus` once the value to check is computed. */
  function CheckedUpdateStatus(customers: seq<Customer>, contacts: seq<Contact>, cc: int, allowed: bool,
                               c: Contact, value: string): int
  {
    if !ContactBinds(c) then 400
    else if !WellFormedValue(c.contactType, value, cc) then 400
    else if !allowed then 403
    else if ValueTaken(customers, contacts, c.contactType, value, Some(c.customerId), Some(c.uid)) then 400
    else 200
  }

  /** The struct `UpdateCustomerContact` writes: the trimmed value (not normalized), the hash
      of the checked value, and the time of the request. */
  function WrittenContact(c: Contact, cc: int, sha256: string -> string, now: string): (r: Contact)
    ensures r.value == TrimSpace(c.value) && r.lastUpdate == now && r.uid == c.uid
    ensures r.encPhone == ContactHash(c.contactType, CheckedValue(c, cc), sha256)
  {
    c.(value := TrimSpace(c.value), encPhone := ContactHash(c.contactType, CheckedValue(c, cc), sha256),
       lastUpdate := now)
  }

  /** `Updates` on the contacts with the given uid. */
  function UpdateContactRows(rows: seq<Contact>, uid: int, c: Contact): (r: seq<Contact>)
    ensures |r| == |rows|
    ensures forall i | 0 <= i < |rows| :: r[i] == (if rows[i].uid == uid then MergeContact(rows[i], c) else rows[i])
  {
    seq(|rows|, i requires 0 <= i < |rows| => if rows[i].uid == uid then MergeContact(rows[i], c) else rows[i])
  }

  function FindContact(rows: seq<Contact>, uid: int): Option<Contact>
  {
    First(rows, (x: Contact) => x.uid == uid)
  }

  const ContactIgnored: seq<string> := ["UID", "EncPhone", "LastUpdate"]

  /** The checks of `UpdateCustomerContact` up to the write. */
  method CheckContactUpdate(db: Database, cc: int, user: User, input: Contact)
    returns (code: int)
    ensures code == UpdateContactStatus(db.customers, db.contacts, cc,
                                        db.Allowed(user.uid, "o_customer_contacts", 0, "update_"), input)
  {
    var contactValue := TrimSpace(input.value);
    if input.contactType == AlternativePhone1 || input.contactType == AlternativePhone2 {
      contactValue := MakePhoneValid(contactValue, cc);
    }
    code := CheckCheckedUpdate(db, cc, user, input, contactValue);
  }

  /** The checks of `UpdateCustomerContact` on the value to check: binding, format,
      permission, then duplicates. */
  method CheckCheckedUpdate(db: Database, cc: int, user: User, input: Contact, contactValue: string)
    returns (code: int)
    ensures code == CheckedUpdateStatus(db.customers, db.contacts, cc,
                                        db.Allowed(user.uid, "o_customer_contacts", 0, "update_"), input,
                                        contactValue)
  {
    if !ContactBinds(input) {
      return 400;
    }
    var contactType := input.contactType;
    if contactType == AlternativePhone1 || contactType == AlternativePhone2 {
      if !IsPhoneValid(contactValue, cc) {
        return 400;
      }
    }
    if contactType == AlternativeEmail1 {
      if !IsValidEmail(contactValue) {
        return 400;
      }
    }
    if !db.Allowed(user.uid, "o_customer_contacts", 0, "update_") {
      return 403;
    }
    var taken := CheckValueTaken(db.customers, db.contacts, contactType, contactValue,
                                 Some(input.customerId), Some(input.uid));
    if taken {
      return 400;
    }
    return 200;
  }

  /** `UpdateCustomerContact`. After the checks the original row is loaded (500 when there
      is none), the contact rows with the input's uid are updated with the written struct,
      and one change-log event is filed under the customer, comparing the original with the
      struct as sent (zero fields included). */
  method UpdateCustomerContact(db: Database, config: Config, crypto: Crypto, user: User,
                               input: Option<Contact>, now: string)
    returns (code: int)
    modifies db`contacts, db`events
    ensures input.None? ==> code == 400
    ensures input.Some? && old(UpdateContactStatus(db.customers, db.contacts, config.cc,
                                                   db.Allowed(user.uid, "o_customer_contacts", 0, "update_"),
                                                   input.value)) != 200 ==>
              code == old(UpdateContactStatus(db.customers, db.contacts, config.cc,
                                              db.Allowed(user.uid, "o_customer_contacts", 0, "update_"),
                                              input.value))
              && db.contacts == old(db.contacts) && db.events == old(db.events)
    ensures input.Some? && old(UpdateContactStatus(db.customers, db.contacts, config.cc,
                                                   db.Allowed(user.uid, "o_customer_contacts", 0, "update_"),
                                                   input.value)) == 200 ==>
              ContactWriteDone(old(db.contacts), old(db.events), db.contacts, db.events, code, user, input.value,
                               WrittenContact(input.value, config.cc, crypto.sha256, now))
  {
    if input.None? {
      return 400;
    }
    var c := input.value;
    code := CheckContactUpdate(db, config.cc, user, c);
    if code != 200 {
      return;
    }
    code := WriteContactUpdate(db, user, c, WrittenContact(c, config.cc, crypto.sha256, now));
  }

  /** The state after the write of `UpdateCustomerContact`, from the rows and events before it:
      500 and no change without a row under the contact's uid, otherwise 200, the rows updated
      and exactly one change-log event appended. */
  ghost predicate ContactWriteDone(contacts0: seq<Contact>, events0: seq<Event>, contacts: seq<Contact>,
                                   events: seq<Event>, code: int, user: User, c: Contact, written: Contact)
  {
    match FindContact(contacts0, c.uid)
    case None => code == 500 && contacts == contacts0 && events == events0
    case Some(original) =>
      && code == 200
      && contacts == UpdateContactRows(contacts0, c.uid, written)
      && |events| == |events0| + 1
      && events[..|events0|] == events0
      && LogsUpdate(events[|events0|], "o_customers", "Contact", c.uid, c.customerId, user,
                    ContactSnapshot(original), ContactSnapshot(written), ContactIgnored)
  }

  /** The write of `UpdateCustomerContact` once the checks passed. */
  method WriteContactUpdate(db: Database, user: User, c: Contact, written: Contact)
    returns (code: int)
    modifies db`contacts, db`events
    ensures ContactWriteDone(old(db.contacts), old(db.events), db.contacts, db.events, code, user, c, written)
  {
    var original := FindContact(db.contacts, c.uid);
    if original.None? {
      return 500;
    }
    db.contacts := UpdateContactRows(db.contacts, c.uid, written);
    db.CreateChangesLog("update", "o_customers", "Contact", c.uid, c.customerId,
                        ContactSnapshot(original.value), ContactSnapshot(written), user, ContactIgnored);
    return 200;
  }

  /** An email update keeps the contact table unique: the stored value is the checked one,
      which no other contact holds. */
  lemma EmailUpdateKeepsUnique(customers: seq<Customer>, contacts: seq<Contact>, cc: int, allowed: bool,
                               c: Contact, sha256: string -> string, now: string)
    requires UpdateContactStatus(customers, contacts, cc, allowed, c) == 200
    requires IsEmailType(c.contactType)
    requires UniqueContacts(contacts)
    ensures UniqueContacts(UpdateContactRows(contacts, c.uid, WrittenContact(c, cc, sha256, now)))
  {
    var written := WrittenContact(c, cc, sha256, now);
    assert written.value == CheckedValue(c, cc);
    assert !ValueInUse(contacts, written.value, Some(c.uid));
    UpdateContactKeepsUnique(contacts, c.uid, written);
  }

  /** Updating the row with key `uid` keeps the table unique when the new value is empty
      (so the stored one stays) or held by no other row. */
  lemma UpdateContactKeepsUnique(rows: seq<Contact>, uid: int, w: Contact)
    requires UniqueContacts(rows) && w.uid == uid
    requires w.value == "" || !ValueInUse(rows, w.value, Some(uid))
    ensures UniqueContacts(UpdateContactRows(rows, uid, w))
  {
    var all := UpdateContactRows(rows, uid, w);
    assert ContactUids(all) == ContactUids(rows) by {
      forall i | 0 <= i < |rows| ensures all[i].uid == rows[i].uid { }
    }
    forall i, j | 0 <= i < j < |all| ensures all[i].value != all[j].value
    {
      assert !(rows[i].uid == uid && rows[j].uid == uid) by {
        assert ContactUids(rows)[i] == rows[i].uid && ContactUids(rows)[j] == rows[j].uid;
      }
    }
  }

  /** Two contacts, one holding a phone in local form. */
  const LocalFormTable := [Contact(7, 1, 1, "0712345678", None, "", 1), Contact(8, 2, 1, "254700000001", None, "", 1)]

  /** An update of the second contact to the first one's text. */
  const LocalFormUpdate := Contact(8, 2, 1, "0712345678", None, "", 1)

  /** A phone update stores the trimmed value as sent while the duplicate checks look for
      its normalized form. So once a contact holds a phone in local form, a second contact
      can be updated to the same text: the table is no longer unique. */
  lemma PhoneUpdateCanDuplicate(sha256: string -> string, now: string)
    ensures UniqueContacts(LocalFormTable)
    ensures UpdateContactStatus([], LocalFormTable, 254, true, LocalFormUpdate) == 200
    ensures !UniqueContacts(UpdateContactRows(LocalFormTable, 8, WrittenContact(LocalFormUpdate, 254, sha256, now)))
  {
    LocalFormTableUnique();
    LocalFormUpdatePasses();
    LocalFormUpdateDuplicates(sha256, now);
  }

  lemma LocalFormTableUnique()
    ensures UniqueContacts(LocalFormTable)
  {
    assert ContactUids(LocalFormTable) == [7, 8];
    assert LocalFormTable[0].value[1] != LocalFormTable[1].value[1];
  }

  lemma LocalFormUpdateDuplicates(sha256: string -> string, now: string)
    ensures !UniqueContacts(UpdateContactRows(LocalFormTable, 8, WrittenContact(LocalFormUpdate, 254, sha256, now)))
  {
    LocalFormTrimmed();
    WrittenHeldValueDuplicates(LocalFormTable, LocalFormUpdate, 254, sha256, now);
  }

  /** Writing, under the second row's key, a value whose trimmed text the first row holds
      gives two rows with the same value. */
  lemma WrittenHeldValueDuplicates(rows: seq<Contact>, c: Contact, cc: int, sha256: string -> string, now: string)
    requires |rows| == 2 && rows[0].uid != c.uid && rows[1].uid == c.uid
    requires TrimSpace(c.value) != "" && TrimSpace(c.value) == rows[0].value
    ensures !UniqueContacts(UpdateContactRows(rows, c.uid, WrittenContact(c, cc, sha256, now)))
  {
    var all := UpdateContactRows(rows, c.uid, WrittenContact(c, cc, sha256, now));
    assert all[0].value == all[1].value;
  }

  lemma LocalFormUpdatePasses()
    ensures UpdateContactStatus([], LocalFormTable, 254, true, LocalFormUpdate) == 200
  {
    LocalFormChecked();
    LocalFormWellFormed();
    LocalFormNotTaken();
  }

  lemma LocalFormChecked()
    ensures CheckedValue(LocalFormUpdate, 254) == "254712345678"
  {
    LocalFormTrimmed();
    LocalFormNormalizes();
  }

  lemma LocalFormWellFormed()
    ensures WellFormedValue(1, "254712345678", 254)
  {
    Decimal254();
  }

  lemma LocalFormNotTaken()
    ensures !ValueTaken([], LocalFormTable, 1, "254712345678", Some(2), Some(8))
  {
    assert LocalFormTable[0].value != "254712345678" by { assert LocalFormTable[0].value[0] == '0'; }
  }

  // ---------------------------------------------------------------------------------------
  // GetCustomerContacts

  /** The conditions of the contact list of customer `uid`: the customer, and the visible
      branches unless the user reads all customers. */
  function CustomerContactsQuery(uid: int, branches: seq<int>, readAll: bool): (r: Query)
    ensures r.table == "o_customer_contacts c"
    ensures Equals("c.customer_id", IntArg(uid)) in r.filters
    ensures InList("c.branch", branches) in r.filters <==> !readAll
    ensures |r.filters| == 1 + Count(!readAll)
  {
    Query("o_customer_contacts c",
          ["c.uid", "c.contact_type", "c.value", "DATE_FORMAT(c.last_update, '%Y-%m-%d %H:%i:%s') AS last_update"],
          [],
          [Equals("c.customer_id", IntArg(uid))] + (if !readAll then [InList("c.branch", branches)] else []))
  }

  /** `GetCustomerContacts`: read-all is `read_` on customers, and the branch list is that of
      `GetBranches`. */
  method GetCustomerContacts(db: Database, user: User, uidParam: string) returns (query: Query)
    ensures var readAll := db.Allowed(user.uid, "o_customers", 0, "read_");
            query == CustomerContactsQuery(ParamToIntWithDefault(uidParam, 0),
                                           VisibleBranches(db.staff, user, readAll), readAll)
  {
    var uid := ParamToIntWithDefault(uidParam, 0);
    var readAll := db.Allowed(user.uid, "o_customers", 0, "read_");
    var branches := GetBranches(db.staff, user, readAll);
    query := CustomerContactsQuery(uid, branches, readAll);
  }

  /** For a user without read-all, the query carries a `c.branch IN` filter listing exactly
      the branches of active assignments and the user's own branch. */
  lemma ContactsScopedToVisibleBranches(staff: seq<StaffBranch>, user: User, uid: int, b: int)
    ensures var q := CustomerContactsQuery(uid, VisibleBranches(staff, user, false), false);
            exists f | f in q.filters :: f.InList? && f.column == "c.branch"
              && (b in f.values <==>
                    (exists i | 0 <= i < |staff| :: staff[i].agent == user.uid && staff[i].status == 1 && staff[i].branch == b)
                    || (b == user.branch && b > 0))
  {
    VisibleBranchesMembers(staff, user, b);
    var q := CustomerContactsQuery(uid, VisibleBranches(staff, user, false), false);
    assert q.filters[1] == InList("c.branch", VisibleBranches(staff, user, false));
  }
}
