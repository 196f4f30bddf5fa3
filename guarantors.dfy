/** The customer guarantor handlers: `CreateCustomerGuarantor`, `UpdateCustomerGuarantor`
    (which writes its own event text) and the permission gate of the two guarantor reads. */
module Guarantors {
  import opened Base
  import opened Utils
  import opened Audit
  import opened Records
  import opened Permissions
  import opened Store

  /** Another guarantor of the same customer has the same name, national id and mobile. */
  predicate SameGuarantorExists(rows: seq<Guarantor>, name: string, nationalId: string, mobile: string,
                                customerId: int, except: Option<int>)
  {
    exists i | 0 <= i < |rows| ::
      && rows[i].guarantorName == name && rows[i].nationalId == nationalId
      && rows[i].mobileNo == mobile && rows[i].customerId == customerId
      && (except.None? || rows[i].uid != except.value)
  }

  predicate GuarantorNationalIdTaken(rows: seq<Guarantor>, nationalId: string, except: Option<int>)
  {
    exists i | 0 <= i < |rows| :: rows[i].nationalId == nationalId && (except.None? || rows[i].uid != except.value)
  }

  predicate GuarantorMobileTaken(rows: seq<Guarantor>, mobile: string, except: Option<int>)
  {
    exists i | 0 <= i < |rows| :: rows[i].mobileNo == mobile && (except.None? || rows[i].uid != except.value)
  }

  /** The three duplicate checks, in order: the same guarantor, the national id, the mobile. */
  predicate GuarantorDuplicate(rows: seq<Guarantor>, name: string, nationalId: string, mobile: string,
                               customerId: int, except: Option<int>)
  {
    || SameGuarantorExists(rows, name, nationalId, mobile, customerId, except)
    || GuarantorNationalIdTaken(rows, nationalId, except)
    || GuarantorMobileTaken(rows, mobile, except)
  }

  method CheckGuarantorDuplicate(rows: seq<Guarantor>, name: string, nationalId: string, mobile: string,
                                 customerId: int, except: Option<int>)
    returns (duplicate: bool)
    ensures duplicate == GuarantorDuplicate(rows, name, nationalId, mobile, customerId, except)
  {
    if SameGuarantorExists(rows, name, nationalId, mobile, customerId, except) {
      return true;
    }
    if GuarantorNationalIdTaken(rows, nationalId, except) {
      return true;
    }
    if GuarantorMobileTaken(rows, mobile, except) {
      return true;
    }
    return false;
  }

  /** The first duplicate check never decides anything: whenever it holds, the national id
      check that follows holds too, so the answer is the same 400. */
  lemma SameGuarantorCheckIsSubsumed(rows: seq<Guarantor>, name: string, nationalId: string, mobile: string,
                                     customerId: int, except: Option<int>)
    ensures GuarantorDuplicate(rows, name, nationalId, mobile, customerId, except)
            <==> GuarantorNationalIdTaken(rows, nationalId, except) || GuarantorMobileTaken(rows, mobile, except)
  {
    if SameGuarantorExists(rows, name, nationalId, mobile, customerId, except) {
      var i :| 0 <= i < |rows| && rows[i].guarantorName == name && rows[i].nationalId == nationalId
               && rows[i].mobileNo == mobile && rows[i].customerId == customerId
               && (except.None? || rows[i].uid != except.value);
      assert rows[i].nationalId == nationalId && (except.None? || rows[i].uid != except.value);
    }
  }

  /** The guarantor table keeps keys, national ids and mobiles unique. */
  predicate UniqueGuarantors(rows: seq<Guarantor>)
  {
    && UniqueKeys(GuarantorUids(rows))
    && forall i, j | 0 <= i < j < |rows| ::
         rows[i].nationalId != rows[j].nationalId && rows[i].mobileNo != rows[j].mobileNo
  }

  /** The name, mobile, national id and address as both handlers prepare them. */
  function Normalized(g: Guarantor, cc: int): (r: Guarantor)
    ensures r.mobileNo == MakePhoneValid(g.mobileNo, cc)
    ensures r.guarantorName == TrimSpace(g.guarantorName) && r.nationalId == TrimSpace(g.nationalId)
    ensures r.uid == g.uid && r.customerId == g.customerId
  {
    g.(guarantorName := TrimSpace(g.guarantorName), mobileNo := MakePhoneValid(g.mobileNo, cc),
       nationalId := TrimSpace(g.nationalId), physicalAddress := TrimSpace(g.physicalAddress))
  }

  // ---------------------------------------------------------------------------------------
  // CreateCustomerGuarantor

  /** The status code of `CreateCustomerGuarantor` for a bound input, given whether the user
      holds `update_` on customers (the permission it asks for). */
  function CreateGuarantorStatus(rows: seq<Guarantor>, cc: int, allowed: bool, g: Guarantor): (code: int)
    ensures code == 200 <==>
              && allowed && IsPhoneValid(Normalized(g, cc).mobileNo, cc)
              && !GuarantorDuplicate(rows, Normalized(g, cc).guarantorName, Normalized(g, cc).nationalId,
                                     Normalized(g, cc).mobileNo, g.customerId, None)
    ensures code == 403 <==> !allowed
    ensures code in {200, 400, 403}
  {
    var n := Normalized(g, cc);
    if !allowed then 403
    else if !IsPhoneValid(n.mobileNo, cc) then 400
    else if GuarantorDuplicate(rows, n.guarantorName, n.nationalId, n.mobileNo, g.customerId, None) then 400
    else 200
  }

  /** The row `CreateCustomerGuarantor` inserts: the prepared fields, the amount and the
      relationship of the input, the time of the request, the next key and status 1. The
      input's status is not copied. */
  function NewGuarantor(rows: seq<Guarantor>, g: Guarantor, cc: int, now: string): (r: Guarantor)
    ensures r.uid !in GuarantorUids(rows) && r.status == 1 && r.addedDate == now
    ensures r.mobileNo == Normalized(g, cc).mobileNo && r.nationalId == Normalized(g, cc).nationalId
  {
    var n := Normalized(g, cc);
    GuarantorDefaults(Guarantor(0, n.guarantorName, g.customerId, n.nationalId, n.mobileNo, n.physicalAddress,
                                g.amountGuaranteed, now, g.relationship, 0),
                      NextUid(GuarantorUids(rows)))
  }

  method PrepareNewGuarantor(db: Database, cc: int, user: User, input: Guarantor, now: string)
    returns (code: int, row: Guarantor)
    ensures code == CreateGuarantorStatus(db.guarantors, cc, db.Allowed(user.uid, "o_customers", 0, "update_"), input)
    ensures code == 200 ==> row == NewGuarantor(db.guarantors, input, cc, now)
  {
    row := input;
    if !db.Allowed(user.uid, "o_customers", 0, "update_") {
      return 403, row;
    }
    var guarantorName := TrimSpace(input.guarantorName);
    var mobileNo := MakePhoneValid(input.mobileNo, cc);
    var nationalId := TrimSpace(input.nationalId);
    var physicalAddress := TrimSpace(input.physicalAddress);
    if !IsPhoneValid(mobileNo, cc) {
      return 400, row;
    }
    var duplicate := CheckGuarantorDuplicate(db.guarantors, guarantorName, nationalId, mobileNo, input.customerId, None);
    if duplicate {
      return 400, row;
    }
    row := Guarantor(0, guarantorName, input.customerId, nationalId, mobileNo, physicalAddress,
                     input.amountGuaranteed, now, input.relationship, 0);
    row := GuarantorDefaults(row, NextUid(GuarantorUids(db.guarantors)));
    return 200, row;
  }

  /** `CreateCustomerGuarantor`. Binding failures (`None`) answer 400. */
  method CreateCustomerGuarantor(db: Database, config: Config, user: User, input: Option<Guarantor>, now: string)
    returns (code: int)
    modifies db`guarantors
    ensures input.None? ==> code == 400
    ensures input.Some? ==>
              code == CreateGuarantorStatus(old(db.guarantors), config.cc,
                                            old(db.Allowed(user.uid, "o_customers", 0, "update_")), input.value)
    ensures code == 200 ==>
              input.Some? && db.guarantors == old(db.guarantors) + [NewGuarantor(old(db.guarantors), input.value, config.cc, now)]
    ensures code != 200 ==> db.guarantors == old(db.guarantors)
    ensures UniqueGuarantors(old(db.guarantors)) ==> UniqueGuarantors(db.guarantors)
  {
    if input.None? {
      return 400;
    }
    var row;
    code, row := PrepareNewGuarantor(db, config.cc, user, input.value, now);
    if code != 200 {
      return;
    }
    NewGuarantorKeepsUnique(db.guarantors, input.value, config.cc, now);
    db.guarantors := db.guarantors + [row];
  }

  lemma NewGuarantorKeepsUnique(rows: seq<Guarantor>, g: Guarantor, cc: int, now: string)
    requires var n := Normalized(g, cc);
             !GuarantorDuplicate(rows, n.guarantorName, n.nationalId, n.mobileNo, g.customerId, None)
    ensures UniqueGuarantors(rows) ==> UniqueGuarantors(rows + [NewGuarantor(rows, g, cc, now)])
  {
    var row := NewGuarantor(rows, g, cc, now);
    assert !GuarantorNationalIdTaken(rows, row.nationalId, None);
    assert !GuarantorMobileTaken(rows, row.mobileNo, None);
    if UniqueGuarantors(rows) {
      AppendGuarantorKeepsUnique(rows, row);
    }
  }

  lemma AppendGuarantorKeepsUnique(rows: seq<Guarantor>, row: Guarantor)
    requires UniqueGuarantors(rows) && row.uid !in GuarantorUids(rows)
    requires !GuarantorNationalIdTaken(rows, row.nationalId, None) && !GuarantorMobileTaken(rows, row.mobileNo, None)
    ensures UniqueGuarantors(rows + [row])
  {
    var all := rows + [row];
    UniqueKeysAppend(GuarantorUids(rows), row.uid);
    assert GuarantorUids(all) == GuarantorUids(rows) + [row.uid];
    forall i, j | 0 <= i < j < |all|
      ensures all[i].nationalId != all[j].nationalId && all[i].mobileNo != all[j].mobileNo
    {
      assert all[i] == rows[i];
      if j == |rows| {
        assert all[j] == row;
      } else {
        assert all[j] == rows[j];
      }
    }
  }

  // ---------------------------------------------------------------------------------------
  // UpdateCustomerGuarantor

  /** The status code of `UpdateCustomerGuarantor` for a bound input: 403 without `update_`
      on customers, 400 for an invalid phone or a duplicate (other guarantors only), 404 when
      there is no guarantor with the uid, and 201 on success. */
  function UpdateGuarantorStatus(rows: seq<Guarantor>, cc: int, allowed: bool, g: Guarantor): (code: int)
    ensures code == 201 <==>
              && allowed && IsPhoneValid(Normalized(g, cc).mobileNo, cc)
              && !GuarantorDuplicate(rows, Normalized(g, cc).guarantorName, Normalized(g, cc).nationalId,
                                     Normalized(g, cc).mobileNo, g.customerId, Some(g.uid))
              && FindGuarantor(rows, g.uid).Some?
    ensures code == 403 <==> !allowed
    ensures code == 404 ==> FindGuarantor(rows, g.uid).None?
    ensures code in {201, 400, 403, 404}
  {
    var n := Normalized(g, cc);
    if !allowed then 403
    else if !IsPhoneValid(n.mobileNo, cc) then 400
    else if GuarantorDuplicate(rows, n.guarantorName, n.nationalId, n.mobileNo, g.customerId, Some(g.uid)) then 400
    else if FindGuarantor(rows, g.uid).None? then 404
    else 201
  }

  function FindGuarantor(rows: seq<Guarantor>, uid: int): Option<Guarantor>
  {
    First(rows, (x: Guarantor) => x.uid == uid)
  }

  /** The struct `UpdateCustomerGuarantor` writes: the prepared fields, relationship and
      status passed through `TrimInt(strconv.Itoa(...))`, and no added date. */
  function WrittenGuarantor(g: Guarantor, cc: int): (r: Guarantor)
    ensures r.addedDate == "" && r.uid == g.uid
    ensures r.mobileNo == MakePhoneValid(g.mobileNo, cc)
  {
    Normalized(g, cc).(addedDate := "", relationship := TrimInt(Decimal(g.relationship)),
                       status := TrimInt(Decimal(g.status)))
  }

  /** For 64-bit integers, as bound from JSON, the relationship and status round trip
      through the text conversion unchanged. */
  lemma WrittenGuarantorKeepsCodes(g: Guarantor, cc: int)
    requires MinInt64 <= g.relationship <= MaxInt64 && MinInt64 <= g.status <= MaxInt64
    ensures WrittenGuarantor(g, cc).relationship == g.relationship
    ensures WrittenGuarantor(g, cc).status == g.status
  {
    TrimIntOfDecimal(g.relationship);
    TrimIntOfDecimal(g.status);
  }

  /** `Updates` on the guarantors with the given uid. */
  function UpdateGuarantorRows(rows: seq<Guarantor>, uid: int, g: Guarantor): (r: seq<Guarantor>)
    ensures |r| == |rows|
    ensures forall i | 0 <= i < |rows| :: r[i] == (if rows[i].uid == uid then MergeGuarantor(rows[i], g) else rows[i])
  {
    seq(|rows|, i requires 0 <= i < |rows| => if rows[i].uid == uid then MergeGuarantor(rows[i], g) else rows[i])
  }

  /** The original as the handler loads it: only the selected columns, so its uid and added
      date are zero. */
  function LoadedOriginal(row: Guarantor): Snapshot
  {
    GuarantorSnapshot("UpdateCustomerGuarantorSchema", row.(uid := 0, addedDate := ""))
  }

  const GuarantorIgnored: seq<string> := ["UID", "AddedDate"]

  /** `%s changed from %+v to %+v`, one line of a guarantor update event. */
  function GuarantorChangeLine(fieldName: string, c: Change): string
  {
    fieldName + " changed from " + Render(c.before) + " to " + Render(c.after)
  }

  function GuarantorChangeLines(order: seq<string>, modified: map<string, Change>): (lines: seq<string>)
    requires forall k | k in order :: k in modified
    ensures |lines| == |order|
  {
    if |order| == 0 then []
    else GuarantorChangeLines(order[..|order| - 1], modified)
           + [GuarantorChangeLine(order[|order| - 1], modified[order[|order| - 1]])]
  }

  /** `Update triggered by %s [UID: %d]`. */
  function GuarantorHeader(user: User): string
  {
    "Update triggered by " + user.name + " [UID: " + Decimal(user.uid) + "]"
  }

  /** The event text of a guarantor update, for the changes listed in `order`. */
  function GuarantorUpdateText(user: User, order: seq<string>, modified: map<string, Change>): string
    requires forall k | k in order :: k in modified
  {
    var head := GuarantorHeader(user);
    if |modified| > 0 then head + ". Changes: " + Join(GuarantorChangeLines(order, modified), ", ")
    else head + ". No values were modified"
  }

  /** The loop over the modified fields; Go visits them in an unspecified order, which
      `order` records. */
  method GuarantorEventDetails(user: User, modified: map<string, Change>)
    returns (details: string, ghost order: seq<string>)
    ensures IsEnumeration(order, modified.Keys)
    ensures details == GuarantorUpdateText(user, order, modified)
  {
    var logMessages: seq<string> := [];
    order := [];
    var remaining := modified.Keys;
    while remaining != {}
      invariant remaining <= modified.Keys
      invariant forall k :: k in order <==> k in modified.Keys && k !in remaining
      invariant forall i, j | 0 <= i < j < |order| :: order[i] != order[j]
      invariant logMessages == GuarantorChangeLines(order, modified)
      decreases |remaining|
    {
      var fieldName :| fieldName in remaining;
      logMessages := logMessages + [GuarantorChangeLine(fieldName, modified[fieldName])];
      order := order + [fieldName];
      remaining := remaining - {fieldName};
      assert order[..|order| - 1] == order[..|order| - 1];
    }
    var head := GuarantorHeader(user);
    if |modified| > 0 {
      details := head + ". Changes: " + Join(logMessages, ", ");
    } else {
      details := head + ". No values were modified";
    }
  }

  /** `e` is the event a guarantor update writes: against the customer, by the user, listing
      the diff of the loaded original and the written struct in some order. */
  ghost predicate LogsGuarantorUpdate(e: Event, customerId: int, user: User, original: Snapshot, updated: Snapshot)
    requires WellFormed(original) && |updated.values| >= |original.values|
  {
    && e.tbl == "o_customers" && e.fld == customerId && e.eventBy == user.uid
    && exists order: seq<string>, modified: map<string, Change> ::
         && IsEnumeration(order, modified.Keys)
         && IsDiff(modified, original, updated, GuarantorIgnored)
         && e.details == GuarantorUpdateText(user, order, modified)
  }

  /** The checks of `UpdateCustomerGuarantor` up to the write. */
  method CheckGuarantorUpdate(db: Database, cc: int, user: User, input: Guarantor)
    returns (code: int)
    ensures code == UpdateGuarantorStatus(db.guarantors, cc, db.Allowed(user.uid, "o_customers", 0, "update_"), input)
  {
    if !db.Allowed(user.uid, "o_customers", 0, "update_") {
      return 403;
    }
    var guarantorName := TrimSpace(input.guarantorName);
    var mobileNo := MakePhoneValid(input.mobileNo, cc);
    var nationalId := TrimSpace(input.nationalId);
    if !IsPhoneValid(mobileNo, cc) {
      return 400;
    }
    var duplicate := CheckGuarantorDuplicate(db.guarantors, guarantorName, nationalId, mobileNo,
                                             input.customerId, Some(input.uid));
    if duplicate {
      return 400;
    }
    if FindGuarantor(db.guarantors, input.uid).None? {
      return 404;
    }
    return 201;
  }

  /** `UpdateCustomerGuarantor`. On success the guarantor rows with the uid are updated and
      one event is written against the customer; the answer is 201. */
  method UpdateCustomerGuarantor(db: Database, config: Config, user: User, input: Option<Guarantor>)
    returns (code: int)
    modifies db`guarantors, db`events
    ensures input.None? ==> code == 400
    ensures input.Some? ==>
              code == old(UpdateGuarantorStatus(db.guarantors, config.cc,
                                                db.Allowed(user.uid, "o_customers", 0, "update_"), input.value))
    ensures code != 201 ==> db.guarantors == old(db.guarantors) && db.events == old(db.events)
    ensures code == 201 ==>
              && input.Some?
              && var g := input.value;
                 var written := WrittenGuarantor(g, config.cc);
                 && db.guarantors == UpdateGuarantorRows(old(db.guarantors), g.uid, written)
                 && |db.events| == |old(db.events)| + 1
                 && db.events[..|old(db.events)|] == old(db.events)
                 && LogsGuarantorUpdate(db.events[|old(db.events)|], g.customerId, user,
                                        LoadedOriginal(FindGuarantor(old(db.guarantors), g.uid).value),
                                        GuarantorSnapshot("OCustomerGuarantor", written))
    ensures UniqueGuarantors(old(db.guarantors)) ==> UniqueGuarantors(db.guarantors)
  {
    if input.None? {
      return 400;
    }
    var g := input.value;
    code := CheckGuarantorUpdate(db, config.cc, user, g);
    if code != 201 {
      return;
    }
    var original := FindGuarantor(db.guarantors, g.uid).value;
    var written := WrittenGuarantor(g, config.cc);
    UpdatedGuarantorKeepsUnique(db.guarantors, g, config.cc);
    db.guarantors := UpdateGuarantorRows(db.guarantors, g.uid, written);
    LogGuarantorUpdate(db, user, g.customerId, LoadedOriginal(original), GuarantorSnapshot("OCustomerGuarantor", written));
  }

  /** The diff, the event text and the event of a guarantor update. */
  method LogGuarantorUpdate(db: Database, user: User, customerId: int, original: Snapshot, updated: Snapshot)
    requires WellFormed(original) && |updated.values| >= |original.values|
    modifies db`events
    ensures |db.events| == |old(db.events)| + 1 && db.events[..|old(db.events)|] == old(db.events)
    ensures LogsGuarantorUpdate(db.events[|old(db.events)|], customerId, user, original, updated)
  {
    var modified := IdentifyModifiedFields(original, updated, GuarantorIgnored);
    var details, order := GuarantorEventDetails(user, modified);
    GuarantorEventLogged(customerId, user, original, updated, order, modified, details);
    db.LogEvent("o_customers", customerId, details, user.uid);
    assert db.events[..|old(db.events)|] == old(db.events);
  }

  lemma GuarantorEventLogged(customerId: int, user: User, original: Snapshot, updated: Snapshot,
                             order: seq<string>, modified: map<string, Change>, details: string)
    requires WellFormed(original) && |updated.values| >= |original.values|
    requires IsEnumeration(order, modified.Keys) && IsDiff(modified, original, updated, GuarantorIgnored)
    requires details == GuarantorUpdateText(user, order, modified)
    ensures LogsGuarantorUpdate(Event("o_customers", customerId, details, user.uid), customerId, user, original, updated)
  {
  }

  /** An update that passed the duplicate checks keeps the guarantor table unique. */
  lemma UpdatedGuarantorKeepsUnique(rows: seq<Guarantor>, g: Guarantor, cc: int)
    requires var n := Normalized(g, cc);
             !GuarantorDuplicate(rows, n.guarantorName, n.nationalId, n.mobileNo, g.customerId, Some(g.uid))
    ensures UniqueGuarantors(rows) ==> UniqueGuarantors(UpdateGuarantorRows(rows, g.uid, WrittenGuarantor(g, cc)))
  {
    var w := WrittenGuarantor(g, cc);
    assert w.nationalId == Normalized(g, cc).nationalId && w.mobileNo == Normalized(g, cc).mobileNo;
    if UniqueGuarantors(rows) {
      UpdateGuarantorRowKeepsUnique(rows, g.uid, w);
    }
  }

  /** Updating the row with key `uid` keeps the table unique when its new national id and
      mobile are empty (so the stored ones stay) or held by no other row. */
  lemma UpdateGuarantorRowKeepsUnique(rows: seq<Guarantor>, uid: int, w: Guarantor)
    requires UniqueGuarantors(rows) && w.uid == uid
    requires w.nationalId == "" || !GuarantorNationalIdTaken(rows, w.nationalId, Some(uid))
    requires w.mobileNo == "" || !GuarantorMobileTaken(rows, w.mobileNo, Some(uid))
    ensures UniqueGuarantors(UpdateGuarantorRows(rows, uid, w))
  {
    var all := UpdateGuarantorRows(rows, uid, w);
    assert GuarantorUids(all) == GuarantorUids(rows) by {
      forall i | 0 <= i < |rows| ensures all[i].uid == rows[i].uid { }
    }
    forall i, j | 0 <= i < j < |all|
      ensures all[i].nationalId != all[j].nationalId && all[i].mobileNo != all[j].mobileNo
    {
      assert !(rows[i].uid == uid && rows[j].uid == uid) by {
        assert GuarantorUids(rows)[i] == rows[i].uid && GuarantorUids(rows)[j] == rows[j].uid;
      }
    }
  }

  /** The update event lists every modified field as "field changed from old to new". */
  lemma GuarantorChangeReported(e: Event, customerId: int, user: User, original: Snapshot, updated: Snapshot, i: int)
    requires WellFormed(original) && |updated.values| >= |original.values|
    requires LogsGuarantorUpdate(e, customerId, user, original, updated)
    requires Modified(original, updated, GuarantorIgnored, i)
    ensures exists k :: InfixAt(GuarantorChangeLine(original.names[i], Change(original.values[i], updated.values[i])),
                                e.details, k)
  {
    var order: seq<string>, modified: map<string, Change> :| IsEnumeration(order, modified.Keys)
        && IsDiff(modified, original, updated, GuarantorIgnored) && e.details == GuarantorUpdateText(user, order, modified);
    var name := original.names[i];
    assert name in modified && modified[name] == Change(original.values[i], updated.values[i]);
    LineInGuarantorText(user, order, modified, name);
  }

  lemma {:induction false} GuarantorChangeLinesAt(order: seq<string>, modified: map<string, Change>, i: int)
    requires forall k | k in order :: k in modified
    requires 0 <= i < |order|
    ensures GuarantorChangeLines(order, modified)[i] == GuarantorChangeLine(order[i], modified[order[i]])
  {
    if i < |order| - 1 {
      GuarantorChangeLinesAt(order[..|order| - 1], modified, i);
    }
  }

  lemma GuarantorLineInBody(order: seq<string>, modified: map<string, Change>, name: string)
    requires IsEnumeration(order, modified.Keys) && name in modified
    ensures exists k :: InfixAt(GuarantorChangeLine(name, modified[name]), Join(GuarantorChangeLines(order, modified), ", "), k)
  {
    var i :| 0 <= i < |order| && order[i] == name;
    GuarantorChangeLinesAt(order, modified, i);
    JoinContainsPart(GuarantorChangeLines(order, modified), ", ", i);
  }

  lemma LineInGuarantorText(user: User, order: seq<string>, modified: map<string, Change>, name: string)
    requires IsEnumeration(order, modified.Keys) && name in modified
    ensures exists k :: InfixAt(GuarantorChangeLine(name, modified[name]), GuarantorUpdateText(user, order, modified), k)
  {
    GuarantorLineInBody(order, modified, name);
    var line := GuarantorChangeLine(name, modified[name]);
    var body := Join(GuarantorChangeLines(order, modified), ", ");
    var k :| InfixAt(line, body, k);
    var head := GuarantorHeader(user) + ". Changes: ";
    assert |modified| > 0;
    assert GuarantorUpdateText(user, order, modified) == head + body;
    InfixBehindPrefix(line, head, body, k);
  }

  /** The added date and the key are never reported, whatever the input holds. */
  lemma GuarantorKeyAndDateNeverReported(modified: map<string, Change>, original: Snapshot, updated: Snapshot)
    requires WellFormed(original) && |updated.values| >= |original.values|
    requires IsDiff(modified, original, updated, GuarantorIgnored)
    ensures "UID" !in modified && "AddedDate" !in modified
  {
  }

  // ---------------------------------------------------------------------------------------
  // GetCustomerGuarantor and GetCustomerGuarantors

  /** The guarantors of customer `uid`, in table order. */
  function GuarantorsOf(rows: seq<Guarantor>, customerId: int): (r: seq<Guarantor>)
    ensures forall g :: g in r <==> g in rows && g.customerId == customerId
  {
    if |rows| == 0 then []
    else
      var rest := GuarantorsOf(rows[1..], customerId);
      assert forall g :: g in rows <==> g == rows[0] || g in rows[1..];
      if rows[0].customerId == customerId then [rows[0]] + rest else rest
  }

  /** `GetCustomerGuarantors`: 403 without `read_` on customers, whatever the customer;
      otherwise that customer's guarantors. */
  method GetCustomerGuarantors(db: Database, user: User, uidParam: string) returns (code: int, rows: seq<Guarantor>)
    ensures !db.Allowed(user.uid, "o_customers", 0, "read_") ==> code == 403 && rows == []
    ensures db.Allowed(user.uid, "o_customers", 0, "read_") ==>
              code == 200 && rows == GuarantorsOf(db.guarantors, ParamToIntWithDefault(uidParam, 0))
  {
    var uid := ParamToIntWithDefault(uidParam, 0);
    if !db.Allowed(user.uid, "o_customers", 0, "read_") {
      return 403, [];
    }
    return 200, GuarantorsOf(db.guarantors, uid);
  }

  /** `GetCustomerGuarantor`: 403 without `read_` on customers; otherwise the guarantor with
      the uid, if any (the scan of no row answers 200 with an empty result). */
  method GetCustomerGuarantor(db: Database, user: User, uidParam: string) returns (code: int, row: Option<Guarantor>)
    ensures !db.Allowed(user.uid, "o_customers", 0, "read_") ==> code == 403 && row.None?
    ensures db.Allowed(user.uid, "o_customers", 0, "read_") ==>
              code == 200 && row == FindGuarantor(db.guarantors, ParamToIntWithDefault(uidParam, 0))
  {
    var uid := ParamToIntWithDefault(uidParam, 0);
    if !db.Allowed(user.uid, "o_customers", 0, "read_") {
      return 403, None;
    }
    return 200, FindGuarantor(db.guarantors, uid);
  }
}
