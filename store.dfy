/** The database the handlers work against, as in-memory tables, with the permission oracle
    and the audit log (`LogEvent`, `StoreEvent`, `CreateChangesLog`). */
module Store {
  import opened Base
  import opened Audit
  import opened Records
  import opened Permissions

  /** Settings read from the environment: what `GetCountryCode` returns (`None` when the
      .env file cannot be loaded or COUNTRY_CODE is empty), the integer `fmt.Sscanf` reads
      from COUNTRY_CODE (0 when it is unset), and the text of COMPANY_ID. */
  datatype Config = Config(countryCode: Option<string>, cc: int, companyId: string)

  /** The hashing library calls: SHA-256 as hex text, bcrypt hashing (`None` when it
      fails) and bcrypt's password comparison. */
  datatype Crypto = Crypto(
    sha256: string -> string,
    bcryptHash: string -> Option<string>,
    bcryptMatches: (string, string) -> bool)

  /** The tables, plus the database behaviour the model keeps abstract: which permission
      queries fail, whether loading a customer fails, and how MySQL evaluates the action
      clause of the grant query. */
  class Database {
    var users: seq<User>
    var grants: seq<Grant>
    var staff: seq<StaffBranch>
    var customers: seq<Customer>
    var contacts: seq<Contact>
    var guarantors: seq<Guarantor>
    var referees: seq<Referee>
    var loans: seq<Loan>
    var events: seq<Event>
    const faults: Faults
    const recordLoadFails: bool
    const actionClause: string -> bool

    constructor (faults: Faults, recordLoadFails: bool, actionClause: string -> bool)
      ensures this.faults == faults && this.recordLoadFails == recordLoadFails
      ensures this.actionClause == actionClause
      ensures users == [] && grants == [] && staff == [] && customers == [] && contacts == []
      ensures guarantors == [] && referees == [] && loans == [] && events == []
    {
      this.faults := faults;
      this.recordLoadFails := recordLoadFails;
      this.actionClause := actionClause;
      users, grants, staff, customers, contacts := [], [], [], [], [];
      guarantors, referees, loans, events := [], [], [], [];
    }

    /** `GetPermission` against the current users and grants. */
    function Allowed(userId: int, tbl: string, rec: int, act: string): bool
      reads this`users, this`grants
    {
      GetPermission(users, grants, faults, actionClause, userId, tbl, rec, act)
    }

    /** `LogEvent` / `StoreEvent`: append one event. A failed insert is only printed, so it
        is not modelled. */
    method LogEvent(tbl: string, fld: int, details: string, eventBy: int)
      modifies this`events
      ensures events == old(events) + [Event(tbl, fld, details, eventBy)]
    {
      events := events + [Event(tbl, fld, details, eventBy)];
    }

    /** `CreateChangesLog`: one event for "update" (the diff of the two records) and for
        "delete", none for any other action. */
    method CreateChangesLog(action: string, secTable: string, entityName: string, primaryId: int,
                            secId: int, original: Snapshot, updated: Snapshot, user: User,
                            ignored: seq<string>)
      requires WellFormed(original) && |updated.values| >= |original.values|
      modifies this`events
      ensures action == "update" ==>
                |events| == |old(events)| + 1 && events[..|old(events)|] == old(events)
                && LogsUpdate(events[|old(events)|], secTable, entityName, primaryId, secId, user,
                              original, updated, ignored)
      ensures action == "delete" ==>
                events == old(events) + [Event(secTable, secId, DeletionText(entityName, primaryId, user), user.uid)]
      ensures action != "update" && action != "delete" ==> events == old(events)
    {
      if action == "update" {
        var modified := IdentifyModifiedFields(original, updated, ignored);
        var details, order := GenerateEventDetails("update", entityName, primaryId, secId, modified, ActorOf(user));
        assert details == UpdateText(entityName, primaryId, ActorOf(user), order, modified);
        LogEvent(secTable, secId, details, user.uid);
        assert events[..|old(events)|] == old(events);
      } else if action == "delete" {
        LogEvent(secTable, secId, DeletionText(entityName, primaryId, user), user.uid);
      }
    }
  }

  /** The text of an update event for the changes `modified`, listed in `order`. */
  function UpdateText(entityName: string, entityId: int, user: Actor, order: seq<string>,
                      modified: map<string, Change>): string
    requires forall k | k in order :: k in modified
  {
    if |modified| > 0 then
      EventHeader("update", entityName, entityId, user) + ". Changes: " + Join(ChangeLines(order, modified), ", ")
    else
      EventHeader("update", entityName, entityId, user) + ". No values were modified"
  }

  /** `Deletion of %s(%v) triggered by %s(%s)(UID: %d)`. */
  function DeletionText(entityName: string, entityId: int, user: User): string
  {
    "Deletion of " + entityName + "(" + Decimal(entityId) + ") triggered by " + user.name + "("
      + user.email + ")(UID: " + Decimal(user.uid) + ")"
  }

  /** `e` is the event `CreateChangesLog("update", ...)` writes: against the secondary table
      and id, by the user, describing the diff of the two records in some enumeration order
      of the modified fields. */
  ghost predicate LogsUpdate(e: Event, secTable: string, entityName: string, entityId: int, secId: int,
                             user: User, original: Snapshot, updated: Snapshot, ignored: seq<string>)
    requires WellFormed(original) && |updated.values| >= |original.values|
  {
    && e.tbl == secTable && e.fld == secId && e.eventBy == user.uid
    && exists order: seq<string>, modified: map<string, Change> ::
         && IsEnumeration(order, modified.Keys)
         && IsDiff(modified, original, updated, ignored)
         && e.details == UpdateText(entityName, entityId, ActorOf(user), order, modified)
  }

  /** An update event for records that agree on every field not ignored says that no
      values were modified. */
  lemma UnchangedRecordLogsNoChange(e: Event, secTable: string, entityName: string, entityId: int,
                                    secId: int, user: User, original: Snapshot, updated: Snapshot,
                                    ignored: seq<string>)
    requires WellFormed(original) && |updated.values| >= |original.values|
    requires forall i :: !Modified(original, updated, ignored, i)
    requires LogsUpdate(e, secTable, entityName, entityId, secId, user, original, updated, ignored)
    ensures e.details == EventHeader("update", entityName, entityId, ActorOf(user)) + ". No values were modified"
  {
    var order: seq<string>, modified: map<string, Change> :| IsEnumeration(order, modified.Keys) && IsDiff(modified, original, updated, ignored)
                           && e.details == UpdateText(entityName, entityId, ActorOf(user), order, modified);
    assert forall name :: name !in modified;
    assert modified.Keys == {};
  }

  /** Every modified field that is not ignored appears in the update event as
      "field from old to new". */
  lemma ChangedFieldIsReported(e: Event, secTable: string, entityName: string, entityId: int,
                               secId: int, user: User, original: Snapshot, updated: Snapshot,
                               ignored: seq<string>, i: int)
    requires WellFormed(original) && |updated.values| >= |original.values|
    requires LogsUpdate(e, secTable, entityName, entityId, secId, user, original, updated, ignored)
    requires Modified(original, updated, ignored, i)
    ensures exists k :: InfixAt(ChangeLine(original.names[i], Change(original.values[i], updated.values[i])), e.details, k)
  {
    var order: seq<string>, modified: map<string, Change> :| IsEnumeration(order, modified.Keys) && IsDiff(modified, original, updated, ignored)
                           && e.details == UpdateText(entityName, entityId, ActorOf(user), order, modified);
    var name := original.names[i];
    assert name in modified && modified[name] == Change(original.values[i], updated.values[i]);
    LineInUpdateText(entityName, entityId, ActorOf(user), order, modified, name);
  }

  lemma LineInUpdateText(entityName: string, entityId: int, user: Actor, order: seq<string>,
                         modified: map<string, Change>, name: string)
    requires IsEnumeration(order, modified.Keys) && name in modified
    ensures exists k :: InfixAt(ChangeLine(name, modified[name]), UpdateText(entityName, entityId, user, order, modified), k)
  {
    EveryChangeReported(order, modified, name);
    var line := ChangeLine(name, modified[name]);
    var body := Join(ChangeLines(order, modified), ", ");
    var k :| InfixAt(line, body, k);
    var head := EventHeader("update", entityName, entityId, user) + ". Changes: ";
    var text := UpdateText(entityName, entityId, user, order, modified);
    assert |modified| > 0;
    assert text == head + body;
    InfixBehindPrefix(line, head, body, k);
  }

  /** An ignored field is never part of the diff, whatever its values. */
  lemma IgnoredFieldNeverReported(modified: map<string, Change>, original: Snapshot, updated: Snapshot,
                                  ignored: seq<string>, name: string)
    requires WellFormed(original) && |updated.values| >= |original.values|
    requires IsDiff(modified, original, updated, ignored) && name in ignored
    ensures name !in modified
  {
  }
}
