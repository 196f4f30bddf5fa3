/** The change diff and the audit-log texts of the `utils` package: reflective field-by-field
    comparison of two records (`AreEqual`, `IdentifyModifiedFields`, `CompareAndLogUpdates`)
    and the event text written for an update (`GenerateEventDetails`). */
module Audit {
  import opened Base

  /** A field value as reflection sees it. Floating-point numbers and times are opaque: they
      are compared only by equality and printed by their rendering. A nullable reference prints
      as its address (or "<nil>") and is compared by what it refers to. */
  datatype Value =
    | IntV(i: int)
    | StrV(s: string)
    | FloatV(repr: string)
    | TimeV(repr: string)
    | PtrV(addr: string, target: Option<string>)

  /** `reflect.DeepEqual` on two field values. */
  predicate DeepEqual(a: Value, b: Value)
  {
    if a.PtrV? && b.PtrV? then a.target == b.target else a == b
  }

  lemma DeepEqualIsEquivalence(a: Value, b: Value, c: Value)
    ensures DeepEqual(a, a)
    ensures DeepEqual(a, b) ==> DeepEqual(b, a)
    ensures DeepEqual(a, b) && DeepEqual(b, c) ==> DeepEqual(a, c)
  {
  }

  /** `fmt`'s `%v` and `%+v` of a field value. */
  function Render(v: Value): string
  {
    match v
    case IntV(i) => Decimal(i)
    case StrV(s) => s
    case FloatV(repr) => repr
    case TimeV(repr) => repr
    case PtrV(addr, target) => if target.None? then "<nil>" else addr
  }

  /** A struct value: its type's name, its field names in declaration order and the
      field values at the same positions. */
  datatype Snapshot = Snapshot(typeName: string, names: seq<string>, values: seq<Value>)

  /** A Go struct has one value per field and no two fields with the same name. */
  predicate WellFormed(s: Snapshot)
  {
    && |s.names| == |s.values|
    && forall i, j | 0 <= i < j < |s.names| :: s.names[i] != s.names[j]
  }

  /** Two struct values have the same type: same type name and same field list. */
  predicate SameType(a: Snapshot, b: Snapshot)
  {
    a.typeName == b.typeName && a.names == b.names
  }

  /** `AreEqual`: the same type, and every pair of fields at the same position deeply
      equal. */
  method AreEqual(a: Snapshot, b: Snapshot) returns (r: bool)
    requires WellFormed(a) && WellFormed(b)
    ensures r <==> SameType(a, b) && forall i | 0 <= i < |a.values| :: DeepEqual(a.values[i], b.values[i])
  {
    if !SameType(a, b) {
      return false;
    }
    var i := 0;
    while i < |a.names|
      invariant 0 <= i <= |a.names|
      invariant forall j | 0 <= j < i :: DeepEqual(a.values[j], b.values[j])
    {
      if !DeepEqual(a.values[i], b.values[i]) {
        return false;
      }
      i := i + 1;
    }
    return true;
  }

  /** The old and new value of a modified field. */
  datatype Change = Change(before: Value, after: Value)

  /** Field `i` of `original` is reported: it is not skipped and its value differs from the
      value at the same position of `updated`. */
  predicate Modified(original: Snapshot, updated: Snapshot, skipFields: seq<string>, i: int)
    requires WellFormed(original) && |updated.values| >= |original.values|
  {
    0 <= i < |original.names| && original.names[i] !in skipFields
    && !DeepEqual(original.values[i], updated.values[i])
  }

  /** `modified` holds exactly the modified fields of `original`, by name, each with its old
      and new value. */
  ghost predicate IsDiff(modified: map<string, Change>, original: Snapshot, updated: Snapshot, skipFields: seq<string>)
    requires WellFormed(original) && |updated.values| >= |original.values|
  {
    && (forall name :: name in modified <==>
          exists i :: Modified(original, updated, skipFields, i) && original.names[i] == name)
    && (forall i | Modified(original, updated, skipFields, i) ::
          modified[original.names[i]] == Change(original.values[i], updated.values[i]))
  }

  /** `IdentifyModifiedFields`: the fields of `original` outside `skipFields` whose values
      differ from the value at the same position of `updated`, each with its old and new
      value. Names come from the original's type. An `updated` value with fewer fields makes
      reflection panic. */
  method IdentifyModifiedFields(original: Snapshot, updated: Snapshot, skipFields: seq<string>)
    returns (modified: map<string, Change>)
    requires WellFormed(original) && |updated.values| >= |original.values|
    ensures IsDiff(modified, original, updated, skipFields)
  {
    var skip: set<string> := {};
    var s := 0;
    while s < |skipFields|
      invariant 0 <= s <= |skipFields|
      invariant skip == set j | 0 <= j < s :: skipFields[j]
    {
      skip := skip + {skipFields[s]};
      s := s + 1;
    }
    assert forall x :: x in skip <==> x in skipFields;
    modified := map[];
    var i := 0;
    while i < |original.names|
      invariant 0 <= i <= |original.names|
      invariant forall name :: name in modified <==>
                  exists j :: j < i && Modified(original, updated, skipFields, j) && original.names[j] == name
      invariant forall j | j < i && Modified(original, updated, skipFields, j) ::
                  modified[original.names[j]] == Change(original.values[j], updated.values[j])
    {
      var fieldName := original.names[i];
      if fieldName !in skip && !DeepEqual(original.values[i], updated.values[i]) {
        modified := modified[fieldName := Change(original.values[i], updated.values[i])];
        assert Modified(original, updated, skipFields, i);
      } else {
        assert !Modified(original, updated, skipFields, i);
      }
      i := i + 1;
    }
  }

  /** Comparing a record with itself reports nothing, whatever is skipped. */
  lemma NothingModifiedInCopy(s: Snapshot, skipFields: seq<string>)
    requires WellFormed(s)
    ensures forall i :: !Modified(s, s, skipFields, i)
  {
  }

  /** Records that `AreEqual` reports equal have no modified field. */
  lemma EqualRecordsHaveNoChanges(a: Snapshot, b: Snapshot, skipFields: seq<string>)
    requires WellFormed(a) && WellFormed(b) && SameType(a, b)
    requires forall i | 0 <= i < |a.values| :: DeepEqual(a.values[i], b.values[i])
    ensures forall i :: !Modified(a, b, skipFields, i)
  {
  }

  /** The user an event is attributed to. */
  datatype Actor = Actor(uid: int, name: string, email: string)

  /** `%s(%v) %s triggered by [%s(%s)(%d)]`, the head of every update event. */
  function EventHeader(action: string, entityName: string, entityId: int, user: Actor): string
  {
    entityName + "(" + Decimal(entityId) + ") " + action + " triggered by [" + user.name + "("
      + user.email + ")(" + Decimal(user.uid) + ")]"
  }

  /** `%s from %+v to %+v`, one line of the changes list. */
  function ChangeLine(fieldName: string, c: Change): string
  {
    fieldName + " from " + Render(c.before) + " to " + Render(c.after)
  }

  /** `order` lists every key of `keys` exactly once. */
  ghost predicate IsEnumeration(order: seq<string>, keys: set<string>)
  {
    && (forall i, j | 0 <= i < j < |order| :: order[i] != order[j])
    && (forall k :: k in order <==> k in keys)
  }

  /** The change lines for the keys of `modified` in the order `order` visits them. */
  function ChangeLines(order: seq<string>, modified: map<string, Change>): (lines: seq<string>)
    requires forall k | k in order :: k in modified
    ensures |lines| == |order|
  {
    if |order| == 0 then []
    else ChangeLines(order[..|order| - 1], modified)
           + [ChangeLine(order[|order| - 1], modified[order[|order| - 1]])]
  }

  lemma {:induction false} ChangeLinesAt(order: seq<string>, modified: map<string, Change>, i: int)
    requires forall k | k in order :: k in modified
    requires 0 <= i < |order|
    ensures ChangeLines(order, modified)[i] == ChangeLine(order[i], modified[order[i]])
  {
    if i < |order| - 1 {
      ChangeLinesAt(order[..|order| - 1], modified, i);
    }
  }

  /** `GenerateEventDetails`. Go visits the keys of a map in an unspecified order; `order`
      records the one taken, and the result is stated for that order, whichever it is. */
  method GenerateEventDetails(action: string, entityName: string, entityId: int, secId: int,
                              modified: map<string, Change>, user: Actor)
    returns (details: string, ghost order: seq<string>)
    ensures IsEnumeration(order, modified.Keys)
    ensures action == "update" && |modified| > 0 ==>
              details == EventHeader(action, entityName, entityId, user) + ". Changes: "
                         + Join(ChangeLines(order, modified), ", ")
    ensures !(action == "update" && |modified| > 0) ==>
              details == EventHeader(action, entityName, entityId, user) + ". No values were modified"
  {
    var logMessages: seq<string> := [];
    order := [];
    var remaining := modified.Keys;
    while remaining != {}
      invariant remaining <= modified.Keys
      invariant forall k :: k in order <==> k in modified.Keys && k !in remaining
      invariant forall i, j | 0 <= i < j < |order| :: order[i] != order[j]
      invariant logMessages == ChangeLines(order, modified)
      decreases |remaining|
    {
      var fieldName :| fieldName in remaining;
      logMessages := logMessages + [ChangeLine(fieldName, modified[fieldName])];
      order := order + [fieldName];
      remaining := remaining - {fieldName};
      assert order[..|order| - 1] == order[..|order| - 1];
    }
    if action == "update" && |modified| > 0 {
      details := EventHeader(action, entityName, entityId, user) + ". Changes: " + Join(logMessages, ", ");
    } else {
      details := EventHeader(action, entityName, entityId, user) + ". No values were modified";
    }
  }

  /** Whatever order the keys are visited in, the changes list holds exactly one line per
      modified field: the same lines, each once, in any two enumerations. */
  lemma {:induction false} ChangeLinesOrderIndependent(o1: seq<string>, o2: seq<string>, modified: map<string, Change>)
    requires IsEnumeration(o1, modified.Keys) && IsEnumeration(o2, modified.Keys)
    ensures |ChangeLines(o1, modified)| == |ChangeLines(o2, modified)| == |modified|
    ensures forall line :: line in ChangeLines(o1, modified) <==> line in ChangeLines(o2, modified)
  {
    EnumerationLength(o1, modified.Keys);
    EnumerationLength(o2, modified.Keys);
    forall line | line in ChangeLines(o1, modified)
      ensures line in ChangeLines(o2, modified)
    {
      LineOfSomeKey(o1, o2, modified, line);
    }
    forall line | line in ChangeLines(o2, modified)
      ensures line in ChangeLines(o1, modified)
    {
      LineOfSomeKey(o2, o1, modified, line);
    }
  }

  lemma LineOfSomeKey(o1: seq<string>, o2: seq<string>, modified: map<string, Change>, line: string)
    requires IsEnumeration(o1, modified.Keys) && IsEnumeration(o2, modified.Keys)
    requires line in ChangeLines(o1, modified)
    ensures line in ChangeLines(o2, modified)
  {
    var i :| 0 <= i < |ChangeLines(o1, modified)| && ChangeLines(o1, modified)[i] == line;
    ChangeLinesAt(o1, modified, i);
    var k := o1[i];
    var j :| 0 <= j < |o2| && o2[j] == k;
    ChangeLinesAt(o2, modified, j);
  }

  /** An enumeration of a set is as long as the set. */
  lemma {:induction false} EnumerationLength(order: seq<string>, keys: set<string>)
    requires IsEnumeration(order, keys)
    ensures |order| == |keys|
  {
    if |order| > 0 {
      var last := order[|order| - 1];
      var rest := order[..|order| - 1];
      assert IsEnumeration(rest, keys - {last}) by {
        forall k ensures k in rest <==> k in keys - {last} {
          if k in rest {
            var i :| 0 <= i < |rest| && rest[i] == k;
            assert order[i] == k;
          }
          if k in keys - {last} {
            var i :| 0 <= i < |order| && order[i] == k;
            assert i != |order| - 1;
            assert rest[i] == k;
          }
        }
      }
      EnumerationLength(rest, keys - {last});
    } else {
      assert forall k :: k !in keys;
      assert keys == {};
    }
  }

  /** Every modified field is reported in the event text. */
  lemma EveryChangeReported(order: seq<string>, modified: map<string, Change>, name: string)
    requires IsEnumeration(order, modified.Keys) && name in modified
    ensures exists k :: InfixAt(ChangeLine(name, modified[name]), Join(ChangeLines(order, modified), ", "), k)
  {
    var i :| 0 <= i < |order| && order[i] == name;
    ChangeLinesAt(order, modified, i);
    JoinContainsPart(ChangeLines(order, modified), ", ", i);
  }

  /** `reflect.Kind` of a value handed to `CompareAndLogUpdates`: a struct, a map, or some
      other kind named by its kind. */
  datatype Dynamic =
    | StructD(record: Snapshot)
    | MapD(entries: map<Value, Value>)
    | OtherD(kind: string)

  predicate SameKind(a: Dynamic, b: Dynamic)
  {
    (a.StructD? && b.StructD?) || (a.MapD? && b.MapD?) || (a.OtherD? && b.OtherD? && a.kind == b.kind)
  }

  const KindMismatchText := "Error: Original and updated values must be of the same type.\n"
  const UnsupportedKindText := "Error: Unsupported data type.\n"

  /** `%s has been updated from %v to %v\n` for a struct field. */
  function FieldUpdateLine(name: string, before: Value, after: Value): string
  {
    name + " has been updated from " + Render(before) + " to " + Render(after) + "\n"
  }

  /** `Key %v has been updated from %v to %v\n` for a map entry. */
  function KeyUpdateLine(key: Value, before: Value, after: Value): string
  {
    "Key " + Render(key) + " has been updated from " + Render(before) + " to " + Render(after) + "\n"
  }

  /** The struct report: one line per differing field position, in field order. */
  function StructReport(a: Snapshot, b: Snapshot, n: nat): string
    requires |a.names| == |a.values| && |b.values| >= |a.values| && n <= |a.values|
  {
    if n == 0 then "" else StructReport(a, b, n - 1) + FieldLine(a, b, n - 1)
  }

  /** The report line of field position `i`: empty when the values are deeply equal. */
  function FieldLine(a: Snapshot, b: Snapshot, i: nat): string
    requires |a.names| == |a.values| && |b.values| >= |a.values| && i < |a.values|
  {
    if DeepEqual(a.values[i], b.values[i]) then "" else FieldUpdateLine(a.names[i], a.values[i], b.values[i])
  }

  /** The map report for the keys of the original in the order `keys` visits them. */
  function MapReport(keys: seq<Value>, a: map<Value, Value>, b: map<Value, Value>): string
    requires forall k | k in keys :: k in a && k in b
  {
    if |keys| == 0 then ""
    else
      var k := keys[|keys| - 1];
      MapReport(keys[..|keys| - 1], a, b)
      + (if DeepEqual(a[k], b[k]) then "" else KeyUpdateLine(k, a[k], b[k]))
  }

  /** `CompareAndLogUpdates`. Values of different kinds give an error text, as do kinds
      other than struct and map. A struct is compared field by field (the updated value
      must have at least as many fields, or reflection panics); a map is compared on the
      original's keys, in Go's unspecified order, and each key must be present in the
      updated map, or reflection panics. */
  method CompareAndLogUpdates(original: Dynamic, updated: Dynamic) returns (report: string, ghost keys: seq<Value>)
    requires original.StructD? && updated.StructD? ==>
               WellFormed(original.record) && |updated.record.values| >= |original.record.values|
    requires original.MapD? && updated.MapD? ==> original.entries.Keys <= updated.entries.Keys
    ensures !SameKind(original, updated) ==> report == KindMismatchText
    ensures original.OtherD? && SameKind(original, updated) ==> report == UnsupportedKindText
    ensures original.StructD? && updated.StructD? ==>
              report == StructReport(original.record, updated.record, |original.record.values|)
    ensures original.MapD? && updated.MapD? ==>
              (forall k :: k in keys <==> k in original.entries)
              && (forall i, j | 0 <= i < j < |keys| :: keys[i] != keys[j])
              && report == MapReport(keys, original.entries, updated.entries)
  {
    keys := [];
    if !SameKind(original, updated) {
      return KindMismatchText, keys;
    }
    match original
    case StructD(a) =>
      report := StructChanges(a, updated.record);
    case MapD(a) =>
      report, keys := MapChanges(a, updated.entries);
    case OtherD(_) =>
      report := UnsupportedKindText;
  }

  /** The struct case of `CompareAndLogUpdates`: one line per differing field, in field order. */
  method StructChanges(a: Snapshot, b: Snapshot) returns (report: string)
    requires |a.names| == |a.values| && |b.values| >= |a.values|
    ensures report == StructReport(a, b, |a.values|)
  {
    report := "";
    var i := 0;
    while i < |a.values|
      invariant 0 <= i <= |a.values|
      invariant report == StructReport(a, b, i)
    {
      report := report + FieldLine(a, b, i);
      i := i + 1;
    }
  }

  /** The map case of `CompareAndLogUpdates`: the original's keys are visited once each, in
      an order the caller does not choose, and each differing key gives one line. */
  method MapChanges(a: map<Value, Value>, b: map<Value, Value>) returns (report: string, ghost keys: seq<Value>)
    requires a.Keys <= b.Keys
    ensures forall k :: k in keys <==> k in a
    ensures forall i, j | 0 <= i < j < |keys| :: keys[i] != keys[j]
    ensures report == MapReport(keys, a, b)
    ensures report == "" <==> forall k | k in a :: DeepEqual(a[k], b[k])
  {
    keys := [];
    report := "";
    var remaining := a.Keys;
    while remaining != {}
      invariant remaining <= a.Keys
      invariant forall k :: k in keys <==> k in a && k !in remaining
      invariant forall i, j | 0 <= i < j < |keys| :: keys[i] != keys[j]
      invariant report == MapReport(keys, a, b)
      decreases |remaining|
    {
      var key :| key in remaining;
      if !DeepEqual(a[key], b[key]) {
        report := report + KeyUpdateLine(key, a[key], b[key]);
      }
      ghost var visited := keys;
      keys := keys + [key];
      assert keys[..|keys| - 1] == visited;
      remaining := remaining - {key};
    }
    MapReportEmptyIff(keys, a, b);
  }

  /** A key line is never empty. */
  lemma KeyUpdateLineNonEmpty(key: Value, before: Value, after: Value)
    ensures KeyUpdateLine(key, before, after) != ""
  {
    var line := KeyUpdateLine(key, before, after);
    assert line[|line| - 1] == '\n';
  }

  /** The map report is empty exactly when every visited key has deeply equal values. */
  lemma {:induction false} MapReportEmptyIff(keys: seq<Value>, a: map<Value, Value>, b: map<Value, Value>)
    requires forall k | k in keys :: k in a && k in b
    ensures MapReport(keys, a, b) == "" <==> forall i | 0 <= i < |keys| :: DeepEqual(a[keys[i]], b[keys[i]])
  {
    if |keys| > 0 {
      var init := keys[..|keys| - 1];
      var k := keys[|keys| - 1];
      MapReportEmptyIff(init, a, b);
      assert forall i | 0 <= i < |init| :: init[i] == keys[i];
      var tail := if DeepEqual(a[k], b[k]) then "" else KeyUpdateLine(k, a[k], b[k]);
      if !DeepEqual(a[k], b[k]) {
        KeyUpdateLineNonEmpty(k, a[k], b[k]);
      }
      assert MapReport(keys, a, b) == MapReport(init, a, b) + tail;
      assert tail == "" <==> DeepEqual(a[k], b[k]);
    }
  }

  /** A struct compared with itself gives an empty report. */
  lemma {:induction false} StructReportOfCopy(a: Snapshot, n: nat)
    requires |a.names| == |a.values| && n <= |a.values|
    ensures StructReport(a, a, n) == ""
  {
    if n > 0 {
      StructReportOfCopy(a, n - 1);
    }
  }

  /** The struct report is empty exactly when no field position differs. */
  lemma {:induction false} StructReportEmptyIff(a: Snapshot, b: Snapshot, n: nat)
    requires |a.names| == |a.values| && |b.values| >= |a.values| && n <= |a.values|
    ensures StructReport(a, b, n) == "" <==> forall i | 0 <= i < n :: DeepEqual(a.values[i], b.values[i])
  {
    if n > 0 {
      StructReportEmptyIff(a, b, n - 1);
      var prev := StructReport(a, b, n - 1);
      if !DeepEqual(a.values[n - 1], b.values[n - 1]) {
        var line := FieldUpdateLine(a.names[n - 1], a.values[n - 1], b.values[n - 1]);
        assert line[|line| - 1] == '\n';
        assert |StructReport(a, b, n)| == |prev| + |line|;
      } else {
        assert StructReport(a, b, n) == prev + "";
      }
    }
  }
}
