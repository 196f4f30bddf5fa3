/** The customer referee handlers: `GetCustomerReferee`, `GetCustomerReferees`,
    `CreateCustomerReferee` and `UpdateCustomerReferee`. */
module Referees {
  import opened Base
  import opened Utils
  import opened Audit
  import opened Records
  import opened Permissions
  import opened Store

  /** Two referees of the same customer with the same mobile, name and email. */
  predicate SameReferee(a: Referee, b: Referee)
  {
    a.customerId == b.customerId && a.mobileNo == b.mobileNo && a.refereeName == b.refereeName
    && a.emailAddress == b.emailAddress
  }

  /** The referee table: unique keys, and no customer has the same referee twice. */
  predicate UniqueReferees(rows: seq<Referee>)
  {
    && UniqueKeys(RefereeUids(rows))
    && forall i, j | 0 <= i < j < |rows| :: !SameReferee(rows[i], rows[j])
  }

  /** The count query both handlers run: how many other referees match. */
  function RefereeCount(rows: seq<Referee>, f: Referee, except: Option<int>): (n: nat)
    ensures n > 0 <==> exists i | 0 <= i < |rows| :: SameReferee(rows[i], f) && (except.None? || rows[i].uid != except.value)
    ensures n <= |rows|
  {
    if |rows| == 0 then 0
    else
      var rest := RefereeCount(rows[1..], f, except);
      assert forall i | 1 <= i < |rows| :: rows[i] == rows[1..][i - 1];
      (if SameReferee(rows[0], f) && (except.None? || rows[0].uid != except.value) then 1 else 0) + rest
  }

  /** The input as both handlers prepare it: normalized mobile, trimmed address, name and
      email; the national id is left as sent. */
  function Prepared(f: Referee, cc: int): (r: Referee)
    ensures r.mobileNo == MakePhoneValid(f.mobileNo, cc) && r.emailAddress == TrimSpace(f.emailAddress)
    ensures r.refereeName == TrimSpace(f.refereeName) && r.idNo == f.idNo
    ensures r.uid == f.uid && r.customerId == f.customerId && r.addedDate == f.addedDate
  {
    f.(mobileNo := MakePhoneValid(f.mobileNo, cc), physicalAddress := TrimSpace(f.physicalAddress),
       refereeName := TrimSpace(f.refereeName), emailAddress := TrimSpace(f.emailAddress))
  }

  // ---------------------------------------------------------------------------------------
  // CreateCustomerReferee

  /** The status code of `CreateCustomerReferee` for a bound input, given whether the user
      holds `create_` on customers. A key sent by the client that is already taken makes the
      insert fail, which also answers 400. */
  function CreateRefereeStatus(rows: seq<Referee>, cc: int, allowed: bool, f: Referee): (code: int)
    ensures code == 200 <==>
              && allowed && IsPhoneValid(MakePhoneValid(f.mobileNo, cc), cc)
              && RefereeCount(rows, Prepared(f, cc), None) == 0
              && AssignUid(f.uid, RefereeUids(rows)).Some?
    ensures code != 200 ==> code == 403 || code == 400
    ensures code == 403 <==> !allowed
  {
    var p := Prepared(f, cc);
    if !allowed then 403
    else if !IsPhoneValid(p.mobileNo, cc) then 400
    else if RefereeCount(rows, p, None) > 0 then 400
    else if AssignUid(f.uid, RefereeUids(rows)).None? then 400
    else 200
  }

  /** The row `CreateCustomerReferee` inserts: the prepared input stamped with the request
      time, under its own key or the next one, status 1 by default. */
  function NewReferee(rows: seq<Referee>, f: Referee, cc: int, now: Time): (r: Referee)
    requires AssignUid(f.uid, RefereeUids(rows)).Some?
    ensures r.uid !in RefereeUids(rows) && r.addedDate == now
    ensures SameReferee(r, Prepared(f, cc))
  {
    RefereeDefaults(Prepared(f, cc).(addedDate := now), AssignUid(f.uid, RefereeUids(rows)).value)
  }

  method PrepareNewReferee(db: Database, cc: int, user: User, input: Referee, now: Time)
    returns (code: int, row: Referee)
    ensures code == CreateRefereeStatus(db.referees, cc, db.Allowed(user.uid, "o_customers", 0, "create_"), input)
    ensures code == 200 ==> AssignUid(input.uid, RefereeUids(db.referees)).Some?
                            && row == NewReferee(db.referees, input, cc, now)
    ensures code == 200 ==> row.uid !in RefereeUids(db.referees) && RefereeCount(db.referees, row, None) == 0
  {
    row := input;
    if !db.Allowed(user.uid, "o_customers", 0, "create_") {
      return 403, row;
    }
    row := row.(mobileNo := MakePhoneValid(row.mobileNo, cc));
    if !IsPhoneValid(row.mobileNo, cc) {
      return 400, row;
    }
    row := row.(physicalAddress := TrimSpace(row.physicalAddress), refereeName := TrimSpace(row.refereeName),
                emailAddress := TrimSpace(row.emailAddress));
    row := row.(addedDate := now);
    var refereeCount := RefereeCount(db.referees, row, None);
    if refereeCount > 0 {
      return 400, row;
    }
    var uid := AssignUid(row.uid, RefereeUids(db.referees));
    if uid.None? {
      return 400, row;
    }
    ghost var counted := row;
    row := RefereeDefaults(row, uid.value);
    assert forall x :: SameReferee(x, row) == SameReferee(x, counted);
    return 200, row;
  }

  /** `CreateCustomerReferee`. Binding failures (`None`) answer 400. */
  method CreateCustomerReferee(db: Database, config: Config, user: User, input: Option<Referee>, now: Time)
    returns (code: int)
    modifies db`referees
    ensures input.None? ==> code == 400
    ensures input.Some? ==>
              code == CreateRefereeStatus(old(db.referees), config.cc,
                                          old(db.Allowed(user.uid, "o_customers", 0, "create_")), input.value)
    ensures code == 200 ==>
              && input.Some? && AssignUid(input.value.uid, RefereeUids(old(db.referees))).Some?
              && db.referees == old(db.referees) + [NewReferee(old(db.referees), input.value, config.cc, now)]
    ensures code != 200 ==> db.referees == old(db.referees)
    ensures UniqueReferees(old(db.referees)) ==> UniqueReferees(db.referees)
  {
    if input.None? {
      return 400;
    }
    var row;
    code, row := PrepareNewReferee(db, config.cc, user, input.value, now);
    if code != 200 {
      return;
    }
    if UniqueReferees(db.referees) {
      AppendRefereeKeepsUnique(db.referees, row);
    }
    db.referees := db.referees + [row];
  }

  /** Appending a row with a fresh key that no existing referee of its customer duplicates
      keeps the table unique. */
  lemma AppendRefereeKeepsUnique(rows: seq<Referee>, row: Referee)
    requires UniqueReferees(rows) && row.uid !in RefereeUids(rows)
    requires RefereeCount(rows, row, None) == 0
    ensures UniqueReferees(rows + [row])
  {
    var all := rows + [row];
    UniqueKeysAppend(RefereeUids(rows), row.uid);
    assert RefereeUids(all) == RefereeUids(rows) + [row.uid];
    forall i, j | 0 <= i < j < |all| ensures !SameReferee(all[i], all[j])
    {
      assert all[i] == rows[i];
      if j == |rows| {
        assert all[j] == row;
        assert !(SameReferee(rows[i], row));
      } else {
        assert all[j] == rows[j];
      }
    }
  }

  // ---------------------------------------------------------------------------------------
  // UpdateCustomerReferee

  /** The status code of `UpdateCustomerReferee` for a bound input: 400 without a key, 403
      without `update_` on customers, 400 for an invalid phone, 200 otherwise. The duplicate
      count is computed but never consulted, and neither is whether the referee exists: the
      answer does not depend on the table at all. */
  function UpdateRefereeStatus(cc: int, allowed: bool, f: Referee): (code: int)
    ensures code == 200 <==> f.uid != 0 && allowed && IsPhoneValid(MakePhoneValid(f.mobileNo, cc), cc)
    ensures f.uid == 0 ==> code == 400
    ensures code == 403 <==> f.uid != 0 && !allowed
    ensures code in {200, 400, 403}
  {
    if f.uid == 0 then 400
    else if !allowed then 403
    else if !IsPhoneValid(MakePhoneValid(f.mobileNo, cc), cc) then 400
    else 200
  }

  /** The row read back for the change log: the referee with the key, or the zero struct
      when there is none (the lookup's error is ignored). */
  function StoredReferee(rows: seq<Referee>, uid: int): (r: Referee)
    ensures (exists i | 0 <= i < |rows| :: rows[i].uid == uid) ==> r.uid == uid
    ensures (forall i | 0 <= i < |rows| :: rows[i].uid != uid) ==> r == ZeroReferee
  {
    match First(rows, (x: Referee) => x.uid == uid)
    case Some(x) => x
    case None => ZeroReferee
  }

  const ZeroReferee := Referee(0, 0, ZeroTime, "", "", "", "", "", 0, 0)

  /** `Updates` on the referees with the key: the non-zero fields of the input are written. */
  function UpdateRefereeRows(rows: seq<Referee>, uid: int, f: Referee): (r: seq<Referee>)
    ensures |r| == |rows|
    ensures forall i | 0 <= i < |rows| :: r[i] == (if rows[i].uid == uid then MergeReferee(rows[i], f) else rows[i])
  {
    seq(|rows|, i requires 0 <= i < |rows| => if rows[i].uid == uid then MergeReferee(rows[i], f) else rows[i])
  }

  const RefereeIgnored: seq<string> := ["UID", "AddedDate", "IdNo", "Status"]

  /** `UpdateCustomerReferee`. On success the referee rows with the key are updated and one
      change-log event is written against the customer, comparing the stored row (or the zero
      struct) with the prepared input. */
  method UpdateCustomerReferee(db: Database, config: Config, user: User, input: Option<Referee>)
    returns (code: int)
    modifies db`referees, db`events
    ensures input.None? ==> code == 400
    ensures input.Some? ==>
              code == UpdateRefereeStatus(config.cc, old(db.Allowed(user.uid, "o_customers", 0, "update_")), input.value)
    ensures code != 200 ==> db.referees == old(db.referees) && db.events == old(db.events)
    ensures code == 200 ==>
              && input.Some?
              && var f := Prepared(input.value, config.cc);
                 && db.referees == UpdateRefereeRows(old(db.referees), f.uid, f)
                 && |db.events| == |old(db.events)| + 1
                 && db.events[..|old(db.events)|] == old(db.events)
                 && LogsUpdate(db.events[|old(db.events)|], "o_customers", "Referee", f.uid, f.customerId, user,
                               RefereeSnapshot(StoredReferee(old(db.referees), f.uid)), RefereeSnapshot(f),
                               RefereeIgnored)
  {
    if input.None? {
      return 400;
    }
    var f := input.value;
    if f.uid == 0 {
      return 400;
    }
    if !db.Allowed(user.uid, "o_customers", 0, "update_") {
      return 403;
    }
    f := f.(mobileNo := MakePhoneValid(f.mobileNo, config.cc));
    if !IsPhoneValid(f.mobileNo, config.cc) {
      return 400;
    }
    f := f.(physicalAddress := TrimSpace(f.physicalAddress), refereeName := TrimSpace(f.refereeName),
            emailAddress := TrimSpace(f.emailAddress));
    assert f == Prepared(input.value, config.cc);
    var refereeCount := RefereeCount(db.referees, f, Some(f.uid));
    var existing := StoredReferee(db.referees, f.uid);
    db.referees := UpdateRefereeRows(db.referees, f.uid, f);
    db.CreateChangesLog("update", "o_customers", "Referee", f.uid, f.customerId, RefereeSnapshot(existing),
                        RefereeSnapshot(f), user, RefereeIgnored);
    return 200;
  }

  /** An update never changes any key, so the keys stay unique. */
  lemma UpdateKeepsRefereeKeys(rows: seq<Referee>, f: Referee)
    requires UniqueKeys(RefereeUids(rows))
    ensures RefereeUids(UpdateRefereeRows(rows, f.uid, f)) == RefereeUids(rows)
    ensures UniqueKeys(RefereeUids(UpdateRefereeRows(rows, f.uid, f)))
  {
    var all := UpdateRefereeRows(rows, f.uid, f);
    forall i | 0 <= i < |rows| ensures RefereeUids(all)[i] == RefereeUids(rows)[i]
    {
      assert all[i].uid == rows[i].uid;
    }
  }

  /** Because the duplicate count is never consulted, an update accepted with 200 can give a
      referee the mobile, name and email of another referee of the same customer. */
  lemma UpdateCanDuplicateReferee(rows: seq<Referee>, i: int, j: int, input: Referee, cc: int)
    requires 0 <= i < |rows| && 0 <= j < |rows| && rows[i].uid != rows[j].uid && input.uid == rows[j].uid != 0
    requires input.customerId == rows[i].customerId != 0
    requires MakePhoneValid(input.mobileNo, cc) == rows[i].mobileNo && IsPhoneValid(rows[i].mobileNo, cc)
    requires TrimSpace(input.refereeName) == rows[i].refereeName != ""
    requires TrimSpace(input.emailAddress) == rows[i].emailAddress != ""
    ensures UpdateRefereeStatus(cc, true, input) == 200
    ensures !UniqueReferees(UpdateRefereeRows(rows, input.uid, Prepared(input, cc)))
  {
    var f := Prepared(input, cc);
    assert SameReferee(f, rows[i]);
    MergeDuplicates(rows, i, j, f);
  }

  lemma MergeDuplicates(rows: seq<Referee>, i: int, j: int, f: Referee)
    requires 0 <= i < |rows| && 0 <= j < |rows| && rows[i].uid != rows[j].uid && f.uid == rows[j].uid
    requires SameReferee(f, rows[i]) && f.customerId != 0 && f.mobileNo != "" && f.refereeName != "" && f.emailAddress != ""
    ensures !UniqueReferees(UpdateRefereeRows(rows, f.uid, f))
  {
    var all := UpdateRefereeRows(rows, f.uid, f);
    assert all[i] == rows[i];
    assert all[j] == MergeReferee(rows[j], f);
    assert SameReferee(all[i], all[j]) && SameReferee(all[j], all[i]);
    if i < j {
      assert !(!SameReferee(all[i], all[j]));
    } else {
      assert !(!SameReferee(all[j], all[i]));
    }
  }

  // ---------------------------------------------------------------------------------------
  // GetCustomerReferee and GetCustomerReferees

  /** `GetCustomerReferee`: a missing or zero key answers 400 before the permission is
      asked; then 403 without `read_` on customers; otherwise the referee with the key, if any. */
  method GetCustomerReferee(db: Database, user: User, uidParam: string) returns (code: int, row: Option<Referee>)
    ensures var uid := ParamToIntWithDefault(uidParam, 0);
            && (uid == 0 ==> code == 400 && row.None?)
            && (uid != 0 && !db.Allowed(user.uid, "o_customers", 0, "read_") ==> code == 403 && row.None?)
            && (uid != 0 && db.Allowed(user.uid, "o_customers", 0, "read_") ==>
                  code == 200 && row == First(db.referees, (x: Referee) => x.uid == uid))
  {
    var uid := ParamToIntWithDefault(uidParam, 0);
    if uid == 0 {
      return 400, None;
    }
    if !db.Allowed(user.uid, "o_customers", 0, "read_") {
      return 403, None;
    }
    return 200, First(db.referees, (x: Referee) => x.uid == uid);
  }

  /** The referees of customer `customerId`, in table order. */
  function RefereesOf(rows: seq<Referee>, customerId: int): (r: seq<Referee>)
    ensures forall f :: f in r <==> f in rows && f.customerId == customerId
  {
    if |rows| == 0 then []
    else
      var rest := RefereesOf(rows[1..], customerId);
      assert forall f :: f in rows <==> f == rows[0] || f in rows[1..];
      if rows[0].customerId == customerId then [rows[0]] + rest else rest
  }

  /** `GetCustomerReferees`: 403 without `read_` on customers; otherwise that customer's
      referees. */
  method GetCustomerReferees(db: Database, user: User, uidParam: string) returns (code: int, rows: seq<Referee>)
    ensures !db.Allowed(user.uid, "o_customers", 0, "read_") ==> code == 403 && rows == []
    ensures db.Allowed(user.uid, "o_customers", 0, "read_") ==>
              code == 200 && rows == RefereesOf(db.referees, ParamToIntWithDefault(uidParam, 0))
  {
    var uid := ParamToIntWithDefault(uidParam, 0);
    if !db.Allowed(user.uid, "o_customers", 0, "read_") {
      return 403, [];
    }
    return 200, RefereesOf(db.referees, uid);
  }
}
