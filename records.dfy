/** The rows the handlers read and write (customers, contacts, guarantors, referees, users,
    loans, permission grants, staff branches, events), the ORM's treatment of them (zero
    values, `default:` tags, auto-increment keys, `Updates` writing only non-zero fields),
    and their reflective snapshots for the change log. */
module Records {
  import opened Base
  import opened Audit

  /** A `float64` column, known by its `%v` rendering only. Only 0 renders as "0". */
  datatype Float64 = Float64(repr: string)

  predicate IsZeroFloat(f: Float64) { f.repr == "0" }

  /** A `time.Time`, known by its `%v` rendering only. */
  datatype Time = Time(repr: string)

  const ZeroTime := Time("0001-01-01 00:00:00 +0000 UTC")

  /** A customer row (`OCustomer`). */
  datatype Customer = Customer(
    uid: int, customerCode: string, fullName: string, primaryMobile: string,
    phoneNumberProvider: int, encPhone: string, emailAddress: string, physicalAddress: string,
    geolocation: string, town: int, passportPhoto: string, nationalId: string, gender: string,
    dob: string, addedBy: int, currentAgent: int, addedDate: string, branch: int,
    primaryProduct: int, loanLimit: Float64, events: string, secData: string, pin: string,
    deviceId: string, flag: int, totalLoans: int, status: int)

  /** Customer status codes. */
  const Deleted := 0
  const Active := 1
  const Blocked := 2
  const Lead := 3
  const Draft := 4

  /** A customer contact row (`OCustomerContacts`); `encPhone` is nullable. */
  datatype Contact = Contact(
    uid: int, customerId: int, contactType: int, value: string, encPhone: Option<string>,
    lastUpdate: string, status: int)

  /** Contact types. */
  const AlternativePhone1 := 1
  const AlternativePhone2 := 2
  const AlternativeEmail1 := 3

  /** A guarantor row (`OCustomerGuarantor`); the guarantor update schema has the same
      fields in the same order. */
  datatype Guarantor = Guarantor(
    uid: int, guarantorName: string, customerId: int, nationalId: string, mobileNo: string,
    physicalAddress: string, amountGuaranteed: Float64, addedDate: string, relationship: int,
    status: int)

  /** A referee row (`OCustomerReferee`). */
  datatype Referee = Referee(
    uid: int, customerId: int, addedDate: Time, refereeName: string, idNo: string,
    mobileNo: string, physicalAddress: string, emailAddress: string, relationship: int,
    status: int)

  /** A staff user row (`OUser`); `joinDate` is the column as read back. */
  datatype User = User(
    uid: int, name: string, email: string, phone: string, nationalId: string,
    joinDate: string, pass1: string, userGroup: int, tag: string, pair: int, branch: int,
    company: int, status: int)

  /** A loan row (`OLoan`), reduced to the columns the handlers consult. */
  datatype Loan = Loan(uid: int, customerId: int)

  /** A permission grant row (`OPermission`). */
  datatype Grant = Grant(
    uid: int, groupId: int, userId: int, tbl: string, rec: int, general: int, create: int,
    read: int, update: int, delete: int, block: int, unblock: int)

  /** A staff-branch assignment row (`OStaffBranch`). */
  datatype StaffBranch = StaffBranch(uid: int, agent: int, branch: int, status: int)

  /** An audit event row (`OEvent`), reduced to the columns the handlers set. */
  datatype Event = Event(tbl: string, fld: int, details: string, eventBy: int)

  /** The user an event is attributed to. */
  function ActorOf(u: User): Actor
  {
    Actor(u.uid, u.name, u.email)
  }

  // ---------------------------------------------------------------------------------------
  // Table lookups as the ORM performs them.

  /** `First`: the first row satisfying `p`, in table order. */
  function First<T>(rows: seq<T>, p: T -> bool): (r: Option<T>)
    ensures r.None? <==> forall i | 0 <= i < |rows| :: !p(rows[i])
    ensures r.Some? ==> r.value in rows && p(r.value)
    ensures r.Some? ==> exists i | 0 <= i < |rows| :: rows[i] == r.value && forall j | 0 <= j < i :: !p(rows[j])
  {
    if |rows| == 0 then None
    else if p(rows[0]) then Some(rows[0])
    else First(rows[1..], p)
  }

  /** A row satisfying `p` exists, so `First` succeeds. */
  predicate Any<T>(rows: seq<T>, p: T -> bool)
  {
    exists i | 0 <= i < |rows| :: p(rows[i])
  }

  /** The key the auto-increment column gives the next row: one more than the largest. */
  function NextUid(uids: seq<int>): (r: int)
    ensures r >= 1 && forall i | 0 <= i < |uids| :: uids[i] < r
  {
    if |uids| == 0 then 1
    else
      var rest := NextUid(uids[1..]);
      assert forall i | 1 <= i < |uids| :: uids[i] == uids[1..][i - 1];
      if uids[0] < rest then rest else uids[0] + 1
  }

  /** Every row has its own primary key. */
  predicate UniqueKeys(uids: seq<int>)
  {
    forall i, j | 0 <= i < j < |uids| :: uids[i] != uids[j]
  }

  /** Inserting a key the table does not hold keeps the keys unique. */
  lemma {:induction false} UniqueKeysAppend(uids: seq<int>, k: int)
    requires UniqueKeys(uids) && k !in uids
    ensures UniqueKeys(uids + [k])
  {
  }

  function CustomerUids(rows: seq<Customer>): (r: seq<int>)
    ensures |r| == |rows| && forall i | 0 <= i < |rows| :: r[i] == rows[i].uid
  {
    seq(|rows|, i requires 0 <= i < |rows| => rows[i].uid)
  }

  function ContactUids(rows: seq<Contact>): (r: seq<int>)
    ensures |r| == |rows| && forall i | 0 <= i < |rows| :: r[i] == rows[i].uid
  {
    seq(|rows|, i requires 0 <= i < |rows| => rows[i].uid)
  }

  function GuarantorUids(rows: seq<Guarantor>): (r: seq<int>)
    ensures |r| == |rows| && forall i | 0 <= i < |rows| :: r[i] == rows[i].uid
  {
    seq(|rows|, i requires 0 <= i < |rows| => rows[i].uid)
  }

  function RefereeUids(rows: seq<Referee>): (r: seq<int>)
    ensures |r| == |rows| && forall i | 0 <= i < |rows| :: r[i] == rows[i].uid
  {
    seq(|rows|, i requires 0 <= i < |rows| => rows[i].uid)
  }

  function UserUids(rows: seq<User>): (r: seq<int>)
    ensures |r| == |rows| && forall i | 0 <= i < |rows| :: r[i] == rows[i].uid
  {
    seq(|rows|, i requires 0 <= i < |rows| => rows[i].uid)
  }

  /** The key `Create` uses: the row's own non-zero key, or the next auto-increment value.
      `None` when a non-zero key is already taken (a duplicate-key error). */
  function AssignUid(uid: int, uids: seq<int>): (r: Option<int>)
    ensures r.Some? ==> r.value !in uids
    ensures r.Some? && uid != 0 ==> r.value == uid
    ensures r.None? <==> uid != 0 && uid in uids
  {
    if uid == 0 then
      var k := NextUid(uids);
      assert k !in uids by {
        forall i | 0 <= i < |uids| ensures uids[i] != k { }
      }
      Some(k)
    else if uid in uids then None
    else Some(uid)
  }

  // ---------------------------------------------------------------------------------------
  // `Create`: zero fields with a `default:` tag take the column default.

  function DefaultInt(v: int, d: int): int { if v == 0 then d else v }

  /** The row `Create` stores for a customer: provider 1 and status 3 (lead) by default. */
  function CustomerDefaults(c: Customer, uid: int): (r: Customer)
    ensures r.uid == uid
    ensures r.status == (if c.status == 0 then Lead else c.status)
    ensures r.phoneNumberProvider == (if c.phoneNumberProvider == 0 then 1 else c.phoneNumberProvider)
  {
    c.(uid := uid, phoneNumberProvider := DefaultInt(c.phoneNumberProvider, 1),
       status := DefaultInt(c.status, Lead))
  }

  function ContactDefaults(c: Contact, uid: int): (r: Contact)
    ensures r.uid == uid && r.status == (if c.status == 0 then 1 else c.status)
  {
    c.(uid := uid, status := DefaultInt(c.status, 1))
  }

  function GuarantorDefaults(g: Guarantor, uid: int): (r: Guarantor)
    ensures r.uid == uid && r.status == (if g.status == 0 then 1 else g.status)
  {
    g.(uid := uid, status := DefaultInt(g.status, 1))
  }

  function RefereeDefaults(f: Referee, uid: int): (r: Referee)
    ensures r.uid == uid && r.status == (if f.status == 0 then 1 else f.status)
  {
    f.(uid := uid, status := DefaultInt(f.status, 1))
  }

  function UserDefaults(u: User, uid: int): (r: User)
    ensures r.uid == uid
    ensures r.company == (if u.company == 0 then 1 else u.company)
    ensures r.status == (if u.status == 0 then 1 else u.status)
  {
    u.(uid := uid, company := DefaultInt(u.company, 1), status := DefaultInt(u.status, 1))
  }

  // ---------------------------------------------------------------------------------------
  // `Updates(&struct)`: only the non-zero fields of the struct are written.

  function PickInt(stored: int, incoming: int): int { if incoming == 0 then stored else incoming }

  function PickStr(stored: string, incoming: string): string { if incoming == "" then stored else incoming }

  function PickFloat(stored: Float64, incoming: Float64): Float64
  {
    if IsZeroFloat(incoming) then stored else incoming
  }

  function PickTime(stored: Time, incoming: Time): Time { if incoming == ZeroTime then stored else incoming }

  function PickPtr(stored: Option<string>, incoming: Option<string>): Option<string>
  {
    if incoming.None? then stored else incoming
  }

  /** A customer row after `Updates` with `c`: each non-zero field of `c` replaces the
      stored one, every zero field leaves it. */
  function MergeCustomer(s: Customer, c: Customer): (r: Customer)
    ensures c.status != 0 ==> r.status == c.status
    ensures c.status == 0 ==> r.status == s.status
    ensures c.primaryMobile != "" ==> r.primaryMobile == c.primaryMobile
    ensures c.primaryMobile == "" ==> r.primaryMobile == s.primaryMobile
  {
    Customer(
      PickInt(s.uid, c.uid), PickStr(s.customerCode, c.customerCode), PickStr(s.fullName, c.fullName),
      PickStr(s.primaryMobile, c.primaryMobile), PickInt(s.phoneNumberProvider, c.phoneNumberProvider),
      PickStr(s.encPhone, c.encPhone), PickStr(s.emailAddress, c.emailAddress),
      PickStr(s.physicalAddress, c.physicalAddress), PickStr(s.geolocation, c.geolocation),
      PickInt(s.town, c.town), PickStr(s.passportPhoto, c.passportPhoto),
      PickStr(s.nationalId, c.nationalId), PickStr(s.gender, c.gender), PickStr(s.dob, c.dob),
      PickInt(s.addedBy, c.addedBy), PickInt(s.currentAgent, c.currentAgent),
      PickStr(s.addedDate, c.addedDate), PickInt(s.branch, c.branch),
      PickInt(s.primaryProduct, c.primaryProduct), PickFloat(s.loanLimit, c.loanLimit),
      PickStr(s.events, c.events), PickStr(s.secData, c.secData), PickStr(s.pin, c.pin),
      PickStr(s.deviceId, c.deviceId), PickInt(s.flag, c.flag), PickInt(s.totalLoans, c.totalLoans),
      PickInt(s.status, c.status))
  }

  function MergeContact(s: Contact, c: Contact): (r: Contact)
    ensures c.value != "" ==> r.value == c.value
    ensures c.value == "" ==> r.value == s.value
  {
    Contact(PickInt(s.uid, c.uid), PickInt(s.customerId, c.customerId),
            PickInt(s.contactType, c.contactType), PickStr(s.value, c.value),
            PickPtr(s.encPhone, c.encPhone), PickStr(s.lastUpdate, c.lastUpdate),
            PickInt(s.status, c.status))
  }

  function MergeGuarantor(s: Guarantor, g: Guarantor): (r: Guarantor)
    ensures g.status == 0 ==> r.status == s.status
    ensures g.mobileNo != "" ==> r.mobileNo == g.mobileNo
  {
    Guarantor(PickInt(s.uid, g.uid), PickStr(s.guarantorName, g.guarantorName),
              PickInt(s.customerId, g.customerId), PickStr(s.nationalId, g.nationalId),
              PickStr(s.mobileNo, g.mobileNo), PickStr(s.physicalAddress, g.physicalAddress),
              PickFloat(s.amountGuaranteed, g.amountGuaranteed), PickStr(s.addedDate, g.addedDate),
              PickInt(s.relationship, g.relationship), PickInt(s.status, g.status))
  }

  function MergeReferee(s: Referee, f: Referee): (r: Referee)
    ensures f.addedDate == ZeroTime ==> r.addedDate == s.addedDate
    ensures f.mobileNo != "" ==> r.mobileNo == f.mobileNo
  {
    Referee(PickInt(s.uid, f.uid), PickInt(s.customerId, f.customerId),
            PickTime(s.addedDate, f.addedDate), PickStr(s.refereeName, f.refereeName),
            PickStr(s.idNo, f.idNo), PickStr(s.mobileNo, f.mobileNo),
            PickStr(s.physicalAddress, f.physicalAddress), PickStr(s.emailAddress, f.emailAddress),
            PickInt(s.relationship, f.relationship), PickInt(s.status, f.status))
  }

  /** Writing a struct whose every field is already stored changes nothing. */
  lemma MergeCustomerIdempotent(s: Customer, c: Customer)
    ensures MergeCustomer(MergeCustomer(s, c), c) == MergeCustomer(s, c)
  {
  }

  // ---------------------------------------------------------------------------------------
  // Snapshots: the field names of each struct in declaration order, and its values.

  const CustomerFields: seq<string> := ["UID", "CustomerCode", "FullName", "PrimaryMobile",
    "PhoneNumberProvider", "EncPhone", "EmailAddress", "PhysicalAddress", "Geolocation", "Town",
    "PassportPhoto", "NationalID", "Gender", "DOB", "AddedBy", "CurrentAgent", "AddedDate",
    "Branch", "PrimaryProduct", "LoanLimit", "Events", "SecData", "Pin_", "DeviceID", "Flag",
    "TotalLoans", "Status"]

  const ContactFields: seq<string> := ["UID", "CustomerID", "ContactType", "Value", "EncPhone",
    "LastUpdate", "Status"]

  const GuarantorFields: seq<string> := ["UID", "GuarantorName", "CustomerId", "NationalId",
    "MobileNo", "PhysicalAddress", "AmountGuaranteed", "AddedDate", "Relationship", "Status"]

  const RefereeFields: seq<string> := ["UID", "CustomerId", "AddedDate", "RefereeName", "IdNo",
    "MobileNo", "PhysicalAddress", "EmailAddress", "Relationship", "Status"]

  function CustomerSnapshot(c: Customer): (r: Snapshot)
    ensures |r.values| == |r.names| == 27 && r.names == CustomerFields && WellFormed(r)
  {
    Snapshot("OCustomer", CustomerFields, [
      IntV(c.uid), StrV(c.customerCode), StrV(c.fullName), StrV(c.primaryMobile),
      IntV(c.phoneNumberProvider), StrV(c.encPhone), StrV(c.emailAddress),
      StrV(c.physicalAddress), StrV(c.geolocation), IntV(c.town), StrV(c.passportPhoto),
      StrV(c.nationalId), StrV(c.gender), StrV(c.dob), IntV(c.addedBy), IntV(c.currentAgent),
      StrV(c.addedDate), IntV(c.branch), IntV(c.primaryProduct), FloatV(c.loanLimit.repr),
      StrV(c.events), StrV(c.secData), StrV(c.pin), StrV(c.deviceId), IntV(c.flag),
      IntV(c.totalLoans), IntV(c.status)])
  }

  /** What `%v` prints for a non-nil reference, its address. Addresses are not modelled; the
      one such field, a contact's `EncPhone`, is ignored by the contact change log. */
  const AddressText := "0xc000000000"

  function ContactSnapshot(c: Contact): (r: Snapshot)
    ensures |r.values| == |r.names| == 7 && r.names == ContactFields && WellFormed(r)
  {
    Snapshot("OCustomerContacts", ContactFields, [
      IntV(c.uid), IntV(c.customerId), IntV(c.contactType), StrV(c.value), PtrV(AddressText, c.encPhone),
      StrV(c.lastUpdate), IntV(c.status)])
  }

  /** A guarantor as a value of `typeName`: the model struct or the update schema. */
  function GuarantorSnapshot(typeName: string, g: Guarantor): (r: Snapshot)
    ensures |r.values| == |r.names| == 10 && r.names == GuarantorFields && WellFormed(r)
  {
    Snapshot(typeName, GuarantorFields, [
      IntV(g.uid), StrV(g.guarantorName), IntV(g.customerId), StrV(g.nationalId),
      StrV(g.mobileNo), StrV(g.physicalAddress), FloatV(g.amountGuaranteed.repr),
      StrV(g.addedDate), IntV(g.relationship), IntV(g.status)])
  }

  function RefereeSnapshot(f: Referee): (r: Snapshot)
    ensures |r.values| == |r.names| == 10 && r.names == RefereeFields && WellFormed(r)
  {
    Snapshot("OCustomerReferee", RefereeFields, [
      IntV(f.uid), IntV(f.customerId), TimeV(f.addedDate.repr), StrV(f.refereeName),
      StrV(f.idNo), StrV(f.mobileNo), StrV(f.physicalAddress), StrV(f.emailAddress),
      IntV(f.relationship), IntV(f.status)])
  }
}
