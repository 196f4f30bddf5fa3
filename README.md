# superlender-backend: a verified model of the customer and staff-user core

superlender-backend is a CRUD REST service for a lending business. Staff users sign up,
log in and are looked up. They manage customers and each customer's contacts, guarantors
and referees. The handlers check permissions and scope what a user sees to the branches
the user is assigned to. Every update is recorded as an audit event that lists the fields
that changed.

This project models, in Dafny, that core:

- the `utils` package: parameter parsing, phone normalisation and validation, e-mail and
  full-name validation, permissions, branch scoping, the reflective diff, the audit-log
  texts, the list-query builders and the date helpers;
- the handlers that create, update and read customers, contacts, guarantors and referees;
- the staff-user handlers `Signup`, `Login` and `FindUserByID`.

Modules, one per file:

- `Base` (`base.dfy`): `strings.TrimSpace`, `strings.ReplaceAll`, `strings.TrimLeft`,
  `strings.Join`, `strconv.Atoi` and `strconv.Itoa`;
- `Utils` (`utils.dfy`): the string and number helpers of `utils/index.go`;
- `Dates` (`dates.dfy`): `utils/datetime.go`, with the layout "2006-01-02" of `time.Parse`
  and `Time.Format`;
- `Audit` (`audit.dfy`): `AreEqual`, `IdentifyModifiedFields`, `GenerateEventDetails` and
  `CompareAndLogUpdates`;
- `Records` (`records.dfy`): the table rows, and GORM's `First`, `Create` (key and column
  defaults) and `Updates` (non-zero fields only);
- `Store` (`store.dfy`): the database, a class whose tables the handlers change, with
  `LogEvent` and `CreateChangesLog`;
- `Permissions` (`permissions.dfy`): `GetPermission` and `GetBranches`;
- `Queries` (`queries.dfy`): `FindManyCustomersQueryBuilder` and `FindManyUsersQueryBuilder`;
- `Customers`, `Contacts`, `Guarantors`, `Referees` and `Users`, one file each: the handlers
  of the matching controller.

Each handler is a method that takes the `Database` object and changes its tables. Its
contract states three things:

- the status code, as a function of the request and the old tables;
- the new tables, and the event appended to the event table;
- that the table's uniqueness invariant is kept (unique keys, and the values the handler
  refuses to duplicate).

The checks each handler makes in order are a separate method, proved equal to a status
function. Lemmas about the status functions state what a successful call implies.

The environment and the outside world are inputs to the model:

- the settings read from the environment are a `Config` value: the country-code text, its
  integer reading and `COMPANY_ID`;
- SHA-256 and bcrypt are functions passed in as a `Crypto` value;
- the current time is a parameter;
- a request body that fails to bind is `None`;
- the decision of the MySQL action clause in `GetPermission` is a predicate held by the
  `Database`.

## Model

| member | source | states |
|---|---|---|
| Base.TrimSpace | utils/index.go:86-88 | the result is an infix of the input that neither starts nor ends with white space (`unicode.IsSpace`), and everything dropped before and after it is white space |
| Base.TrimSpaceFixed | utils/index.go:125-126 | a string without white space at its ends is returned unchanged |
| Base.TrimSpaceIdempotent | utils/index.go:125-126 | trimming twice is trimming once |
| Base.RemoveChar | utils/index.go:127-128 | the removed character no longer occurs; nothing new is added; a string without it is unchanged |
| Base.RemoveCharCounts | utils/index.go:127-128 | every copy of the character is dropped, and every other character is kept as often as it occurs |
| Base.RemoveCharAppend | utils/index.go:127-128 | removal distributes over concatenation, so the kept characters stay in their order |
| Base.RemoveCharKeeps | utils/index.go:127-128 | every other character survives the removal, and only those |
| Base.TrimLeftChar | utils/index.go:144-145 | every dropped leading character is the given one, and what is left does not start with it |
| Base.Join | utils/index.go:413-424 | joining no parts gives ""; joining one part gives that part |
| Base.JoinContainsPart | utils/index.go:413-424 | every part of a join occurs in the joined text |
| Base.Atoi | utils/index.go:91-99 | a parsed value is a 64-bit integer, written as an optional sign and decimal digits |
| Base.NatDigitsValue | utils/index.go:141 | reading back the decimal digits of a natural number gives the number |
| Base.DecimalRoundTrip | utils/index.go:91-99 | `Atoi(Itoa(n)) == n` for every 64-bit `n` |
| Base.NegativeDecimalRoundTrip | utils/index.go:91-99 | the same round trip for negative numbers, where the rendering starts with '-' |
| Utils.ZeroToOne | utils/index.go:71-76 | the result is 0 or 1, and it is 0 exactly when the input is 1 |
| Utils.TrimInt | utils/index.go:91-99 | the number written in the trimmed text, or 0 when the text does not parse |
| Utils.TrimIntOfDecimal | utils/index.go:91-99 | `TrimInt` reads back any rendered 64-bit integer |
| Utils.ParamToIntWithDefault | utils/index.go:26-41 | the default when the parameter does not parse or parses to 0; otherwise the parsed number |
| Utils.EffectiveCountryCode | utils/index.go:130-139 | the code used for prefixing is always positive: the configured one, else 254 |
| Utils.CleanPhone | utils/index.go:126-128 | the cleaned phone holds neither ' ' nor '+' |
| Utils.MakePhoneValid | utils/index.go:125-152 | the result has no ' ' or '+' and starts with the effective code; a 12-character cleaned number already starting with the code is kept |
| Utils.NoPhoneValidWithoutCountryCode | utils/index.go:154-169 | with COUNTRY_CODE unset no phone is valid, since `IsPhoneValid` has no default of 254 |
| Utils.NormalizedValidIffTwelve | utils/index.go:125-169 | for a three-digit code, a normalised phone is valid exactly when it has 12 characters |
| Utils.MakePhoneValidKeepsNormal | utils/index.go:141-142 | a phone already in normal form is returned unchanged |
| Utils.MakePhoneValidIdempotent | utils/index.go:125-152 | normalising a 12-character result again changes nothing |
| Utils.TabBehindPlusNotIdempotent | utils/index.go:125-152 | a tab hidden behind a '+' survives the first normalisation and changes the second, so normalisation is not idempotent in general |
| Utils.MakePhoneValidLeadingZero | utils/index.go:144-147 | a number in local form loses all its leading zeros and gets the code in front |
| Utils.MakePhoneValidPrefixes | utils/index.go:148-149 | any other number that is not already normal gets the code in front |
| Utils.LocalFormNormalizes | utils/index.go:125-152 | "0712345678" normalises to "254712345678" when the code is 254 |
| Utils.TruncateString | utils/index.go:578-583 | a prefix of the input, of exactly `length` characters when the input is longer, else the whole input; a negative length is the slice panic (`None`), and only it |
| Utils.ToLower | utils/index.go:585-607 | the result is never an ASCII upper-case letter, and other characters are unchanged |
| Utils.SeparatedHasNoUpper | utils/index.go:585-607 | the separated text holds no ASCII upper-case letter and is at least as long as the input |
| Utils.PascalCaseToSeparatedWords | utils/index.go:585-607 | the loop builds the specification: every upper-case letter after the first character starts a new word, and every word starts lower-case |
| Utils.JoinLastGrows | utils/index.go:585-607 | appending to the last word of a join appends to the joined text, as the loop's `+=` does |
| Utils.GeneratePlaceholders | utils/index.go:287-293 | "" for a non-positive count; otherwise `length` question marks separated by ", ", character by character |
| Utils.IntSliceContains | utils/index.go:295-302 | true exactly when the value occurs in the slice |
| Utils.CustomerStatusName | utils/index.go:531-546 | "Unknown" exactly for codes outside 0..4; code 2 is "Blocked" |
| Utils.CustomerStatusNamesDistinct | models/oCustomerModel.go:20-28 | the five customer status codes have five different names |
| Utils.GetErrorMsg | utils/index.go:328-362 | "Unknown error" exactly for unknown tags; a message for a tag with a parameter ends with that parameter |
| Utils.FirstIndex | utils/index.go:364-369 | the position of the first occurrence, or -1 exactly when the character is absent |
| Utils.LastIndex | utils/index.go:117-123 | the position of the last occurrence, or -1 exactly when the character is absent |
| Utils.IsValidFullName | utils/index.go:364-369 | true exactly when the name is two runs of ASCII letters around a single space |
| Utils.IsValidEmail | utils/index.go:117-123 | true exactly when the address splits as local part, '@', domain, '.', and a top-level part of two or more letters |
| Utils.EmailSplitUnique | utils/index.go:117-123 | such a split is forced: the first '@' and the last '.' after it |
| Dates.DaysIn | utils/datetime.go:62-92 | months have 28 to 31 days, and 29 exactly for February of a leap year |
| Dates.RenderDate | utils/datetime.go:88-89 | a rendered date has ten characters with '-' at positions 4 and 7 |
| Dates.ParseDate | utils/datetime.go:77-81 | a parsed date is a valid calendar date |
| Dates.ParseRenderDate | utils/datetime.go:62-92 | parsing a rendered date gives the date back |
| Dates.RenderParseDate | utils/datetime.go:62-92 | rendering a parsed date gives the text back, so every accepted text is already in canonical form |
| Dates.FormatDate | utils/datetime.go:62-92 | lengths other than 10 and 19 fail; with 10 the text is returned exactly when it parses; length 19 never succeeds |
| Dates.FormatDateIdempotent | utils/datetime.go:62-92 | formatting the output again returns it unchanged |
| Dates.FormatDateAcceptsRendered | utils/datetime.go:62-92 | the rendering of any valid date is accepted as it is |
| Dates.LeapDay | utils/datetime.go:77-81 | February 29th parses exactly in leap years |
| Dates.FractionLength | utils/datetime.go:67-69 | the end of a run of digits: no digit follows it |
| Dates.DatetimeFormatter | utils/datetime.go:94-96 | 19 characters, equal to the input's first 19 except that the first 'T' becomes a space |
| Dates.DatetimeFormatterIso | utils/datetime.go:94-96 | an ISO date-time "dateThh:mm:ss..." becomes "date hh:mm:ss" |
| Dates.DatetimeFormatterKeeps | utils/datetime.go:94-96 | a MySQL date-time without 'T' is only cut to 19 characters |
| Dates.DateFormatter | utils/datetime.go:98-100 | the first ten characters |
| Dates.DateFormatterGivesDate | utils/datetime.go:98-100 | a stored value that begins with a valid date is cut to a date that `FormatDate(_, 10)` accepts |
| Audit.DeepEqualIsEquivalence | utils/index.go:426-454 | deep equality of field values is reflexive, symmetric and transitive |
| Audit.AreEqual | utils/index.go:426-454 | true exactly when the two records have the same type and every field is deeply equal to the field at the same position |
| Audit.IdentifyModifiedFields | utils/index.go:457-491 | the map holds exactly the fields that are not skipped and whose values differ, by name, each with its old and new value |
| Audit.NothingModifiedInCopy | utils/index.go:457-491 | a record compared with itself has no modified field, whatever is skipped |
| Audit.EqualRecordsHaveNoChanges | utils/index.go:426-491 | records that `AreEqual` reports equal have no modified field |
| Audit.ChangeLines | utils/index.go:413-424 | one change line per visited key |
| Audit.ChangeLinesAt | utils/index.go:413-424 | line `i` describes key `i` of the visiting order |
| Audit.GenerateEventDetails | utils/index.go:413-424 | for an update with changes: the header and the joined change lines, in some visiting order of the keys; otherwise the header and "No values were modified" |
| Audit.ChangeLinesOrderIndependent | utils/index.go:413-424 | whatever order Go visits the map in, the event lists the same lines, one per modified field |
| Audit.LineOfSomeKey | utils/index.go:413-424 | a line produced under one visiting order is produced under any other |
| Audit.EnumerationLength | utils/index.go:413-424 | a visiting order of a set of keys is as long as the set |
| Audit.EveryChangeReported | utils/index.go:413-424 | the change line of every modified field occurs in the joined text |
| Audit.CompareAndLogUpdates | utils/index.go:493-529 | values of different kinds, and kinds other than struct or map, give the fixed error texts; structs give the struct report and maps the map report |
| Audit.StructChanges | utils/index.go:503-514 | the loop builds one line per differing field, in field order |
| Audit.MapChanges | utils/index.go:515-525 | the loop visits each key of the original once and builds one line per key whose value differs; the report is empty exactly when every key maps to deeply equal values in both maps |
| Audit.MapReportEmptyIff | utils/index.go:515-525 | a map report is empty exactly when every visited key has deeply equal values |
| Audit.StructReportOfCopy | utils/index.go:503-514 | a struct compared with itself gives an empty report |
| Audit.StructReportEmptyIff | utils/index.go:503-514 | the report is empty exactly when every field is deeply equal |
| Records.First | controllers/oCustomerController.go:330-345 | `None` exactly when no row matches; otherwise a matching row with no matching row before it |
| Records.NextUid | controllers/oCustomerController.go:255-260 | the auto-increment key is positive and larger than every key in the table |
| Records.UniqueKeysAppend | controllers/oCustomerController.go:255-260 | inserting a key the table does not hold keeps the keys unique |
| Records.AssignUid | controllers/oCustomerController.go:255-260 | the key of a created row is not yet in the table and is the row's own key when non-zero; the insert fails exactly when that key is taken |
| Records.CustomerDefaults | models/oCustomerModel.go:32-60 | the stored row has the assigned key, status 3 (lead) and provider 1 when those were left zero |
| Records.ContactDefaults | models/oCustomerContactModel.go:12-20 | the stored contact has the assigned key and status 1 when left zero |
| Records.GuarantorDefaults | models/oCustomerGuarantorModel.go:3-14 | the stored guarantor has the assigned key and status 1 when left zero |
| Records.RefereeDefaults | models/oCustomerRefereeModel.go:5-16 | the stored referee has the assigned key and status 1 when left zero |
| Records.UserDefaults | models/oUserModel.go:13-27 | the stored user has the assigned key, and company 1 and status 1 when those were left zero |
| Records.MergeCustomer | controllers/oCustomerController.go:477-482 | `Updates` writes only the non-zero fields: a zero status or empty mobile keeps the stored value |
| Records.MergeContact | controllers/oCustomerContactController.go:377-390 | an empty value keeps the stored one; a non-empty value replaces it |
| Records.MergeGuarantor | controllers/oCustomerGuarantorController.go:269-281 | a zero status keeps the stored one; a non-empty mobile replaces the stored one |
| Records.MergeReferee | controllers/oCustomerRefereeController.go:231 | a zero added date keeps the stored one; a non-empty mobile replaces the stored one |
| Records.MergeCustomerIdempotent | controllers/oCustomerController.go:477-482 | writing the same struct twice is writing it once |
| Records.CustomerSnapshot | controllers/oCustomerController.go:489 | the customer as the diff sees it: its 27 fields by name, one value each |
| Records.ContactSnapshot | controllers/oCustomerContactController.go:393 | the contact as the diff sees it: its 7 fields by name |
| Records.GuarantorSnapshot | controllers/oCustomerGuarantorController.go:284 | the guarantor as the diff sees it: its 10 fields by name |
| Records.RefereeSnapshot | controllers/oCustomerRefereeController.go:239 | the referee as the diff sees it: its 10 fields by name |
| Store.Database.constructor | inits/db.go:12-28 | a fresh connection sees empty tables and keeps the given fault and action-clause behaviour |
| Store.Database.LogEvent | utils/index.go:379-391 | exactly one event is appended, with the given table, record, text and user |
| Store.Database.CreateChangesLog | utils/index.go:393-411 | "update" appends one event listing the diff of the two records; "delete" appends the deletion text; any other action appends nothing |
| Store.UnchangedRecordLogsNoChange | utils/index.go:393-424 | an update of a record whose non-ignored fields are all unchanged is logged as "No values were modified" |
| Store.ChangedFieldIsReported | utils/index.go:393-424 | every modified, non-ignored field appears in the update event as "field from old to new" |
| Store.LineInUpdateText | utils/index.go:413-424 | the change line of every modified field occurs in the update text, after the header |
| Store.IgnoredFieldNeverReported | utils/index.go:457-491 | an ignored field is never part of the diff, whatever its values |
| Permissions.GetPermission | utils/index.go:258-285 | false when the user lookup fails or finds nobody; admins (group 1) are always allowed; otherwise allowed exactly when the grant query does not fail and a grant for the table and record, held by the user or the user's group, passes the action clause |
| Permissions.GrantFlagsIrrelevant | utils/index.go:270-278 | the action flag columns of a grant never change the decision |
| Permissions.OnlyAdminsWithoutClause | utils/index.go:258-285 | when the action clause is false, only admins are allowed |
| Permissions.ActiveBranches | utils/index.go:304-326 | exactly the branches of the user's active staff-branch assignments |
| Permissions.GetBranches | utils/index.go:304-326 | the loop builds the visible branches: [0] with read-all, else the active assignments followed by the user's own branch when it is positive |
| Permissions.VisibleBranchesMembers | utils/index.go:304-326 | without read-all a branch is visible exactly when the user is actively assigned to it or it is the user's own positive branch |
| Permissions.ReadAllSeesAll | utils/index.go:304-326 | with read-all the only entry is 0, which the lookups read as no restriction |
| Queries.Optional | utils/customersUtil.go:24-35 | a condition is added exactly when its parameter is present, once |
| Queries.ClassifyCustomerSearch | utils/customersUtil.go:37-60 | no search for an empty term; a number is a phone search exactly when it has 12 characters and starts "2547" or "2541", and a uid search otherwise; a non-number is a name search exactly when it is all ASCII letters, and a match on uid, phone and name otherwise |
| Queries.CustomerSearchFilters | utils/customersUtil.go:37-60 | a non-empty term adds exactly one condition |
| Queries.FindManyCustomersQueryBuilder | utils/customersUtil.go:11-62 | the count query selects only the uid and joins nothing; each filter is present exactly when its parameter is non-zero; the branch list is used exactly without read-all |
| Queries.CustomerAttributeFilters | utils/customersUtil.go:24-35 | the branch, agent, status and branch-list conditions, each present exactly when its parameter asks for it |
| Queries.CustomerCountMatchesPage | utils/customersUtil.go:11-62 | the count query and the page query filter by the same conditions, so the total matches the pages |
| Queries.ShortNumbersAreNumeric | utils/customersUtil.go:39-49 | a term of up to 18 digits always parses, so it is searched by phone or by uid |
| Queries.PhoneSearchIsDigits | utils/customersUtil.go:42-44 | a phone search term is twelve digits starting "2547" or "2541" |
| Queries.LettersAreNames | utils/customersUtil.go:51-54 | a term of ASCII letters is searched by name |
| Queries.FindManyUsersQueryBuilder | utils/usersUtil.go:5-29 | the count query selects only the uid; each filter is present exactly when its parameter is positive, and the name-or-e-mail match exactly for a non-empty term |
| Queries.UserFiltersIgnoreNonPositive | utils/usersUtil.go:15-23 | non-positive parameters add no filter |
| Queries.UserCountMatchesPage | utils/usersUtil.go:5-29 | the count query and the page query filter by the same conditions |
| Customers.CheckUnique | controllers/oCustomerController.go:206-244 | the lookups stop at the first hit, and report a duplicate exactly when another customer holds the mobile, or the non-empty national id or e-mail |
| Customers.FindVisibleCustomer | controllers/oCustomerController.go:112-125 | a found customer matches the key (the uid when non-zero, else the mobile) and lies in a visible branch; nothing is found only when no such customer exists |
| Customers.FindCustomerById | controllers/oCustomerController.go:85-156 | 400 without a key; 404 for no visible match or a zero uid; 500 when the stored dates are too short to cut; otherwise 200 with the dates cut to a date and a date-time |
| Customers.UidTakesPrecedence | controllers/oCustomerController.go:90-121 | a non-zero uid decides the lookup alone: the mobile parameter is ignored |
| Customers.PreparedCustomer | controllers/oCustomerController.go:246-253 | the inserted mobile is the normalised one, its hash is stored beside it, and the creating user is its adder and current agent |
| Customers.CreateCustomerStatus | controllers/oCustomerController.go:176-260 | 500 without a country code; 400 when the provider is missing outside Kenya; 200 exactly when the code is set, the provider rule holds, nothing is duplicated, the date of birth is long enough to cut and the key is free; only 200, 400 or 500 |
| Customers.PrepareNewCustomer | controllers/oCustomerController.go:176-253 | the status of the checks, and on success the prepared row with its defaults and key |
| Customers.CheckNewCustomer | controllers/oCustomerController.go:176-260 | the checks, in the handler's order, give exactly the status function's code |
| Customers.CheckPreparedCustomer | controllers/oCustomerController.go:203-260 | the duplicate, date-of-birth and key checks on the prepared values, in the handler's order |
| Customers.CreateCustomer | controllers/oCustomerController.go:158-266 | 400 when the body does not bind; only a successful call appends a row, the prepared one; the customer table stays unique |
| Customers.InsertKeepsUnique | controllers/oCustomerController.go:206-260 | appending a row that passed the uniqueness checks under a fresh key keeps the table unique |
| Customers.CheckStatusChange | controllers/oCustomerController.go:348-382 | blocking needs `block_`, unblocking needs `unblock_`, and any other change of status needs `update_` |
| Customers.CheckMobileChange | controllers/oCustomerController.go:402-424 | a changed mobile of an active customer needs `update_` on contacts (403), and a customer with a loan keeps the number (400) |
| Customers.UpdatedCustomer | controllers/oCustomerController.go:385-400 | the written mobile is the normalised one with its hash; key, status and date of birth are the input's |
| Customers.UpdateRows | controllers/oCustomerController.go:477-482 | only the rows with the key change, each by writing the non-zero fields of the struct |
| Customers.UpdateCustomer | controllers/oCustomerController.go:268-497 | a failed check answers its code and changes nothing; otherwise the row is updated, and then either the short stored date of birth answers 500 without an event, or 200 is answered with one update event; the table stays unique |
| Customers.CheckUpdate | controllers/oCustomerController.go:286-474 | the checks before the write, in order, give exactly the status function's code, and on success the stored row exists |
| Customers.CheckChange | controllers/oCustomerController.go:348-474 | the checks against the stored row give exactly the status function's code |
| Customers.CheckPreparedChange | controllers/oCustomerController.go:348-474 | the same checks, on the normalised mobile and the trimmed national id and e-mail |
| Customers.UpdateKeepsUnique | controllers/oCustomerController.go:429-482 | updating a customer with a struct that passed the uniqueness checks keeps the table unique |
| Customers.UpdateNeedsPermissionFirst | controllers/oCustomerController.go:321-328 | without `update_` the update is refused with 403 before the customer is looked up |
| Customers.UpdateRulesHold | controllers/oCustomerController.go:348-464 | a successful update had every permission its status change and mobile change need, no loan blocking a new mobile, a valid phone and no duplicate |
| Customers.OtherStatusChangeAlreadyAllowed | controllers/oCustomerController.go:321-382 | the `update_` test for "other" status changes never refuses, since `update_` was already required |
| Customers.OwnValuesAreNoDuplicate | controllers/oCustomerController.go:429-464 | re-submitting a customer's own mobile, national id and e-mail never counts as a duplicate |
| Contacts.CheckedValue | controllers/oCustomerContactController.go:116-136 | an e-mail is checked trimmed; a phone is checked normalised |
| Contacts.ContactHash | controllers/oCustomerContactController.go:218-224 | a hash is always stored, and it is empty for an e-mail |
| Contacts.CheckValueTaken | controllers/oCustomerContactController.go:170-215 | the customer and contact lookups, in order, find a duplicate exactly when the value rule is broken |
| Contacts.CreateContactStatus | controllers/oCustomerContactController.go:95-231 | 200 exactly when the body binds, the value is well formed, `create_` is held and no customer or contact holds the value; 403 exactly when the body binds and is well formed but `create_` is missing; no other code |
| Contacts.NewContact | controllers/oCustomerContactController.go:218-224 | the inserted contact has a fresh key, status 1, the input's customer and type, the checked value and the request time |
| Contacts.PrepareNewContact | controllers/oCustomerContactController.go:116-224 | the status of the checks, and on success the row to insert |
| Contacts.CreateCustomerContact | controllers/oCustomerContactController.go:95-238 | 400 when the body does not bind; only a successful call appends a row, the prepared one; the contact table stays unique |
| Contacts.NewContactKeepsUnique | controllers/oCustomerContactController.go:170-231 | a created contact's value is new to the table, so the table stays unique |
| Contacts.AppendContactKeepsUnique | controllers/oCustomerContactController.go:226-231 | appending a row with a fresh key and a value no row holds keeps the table unique |
| Contacts.CreatedValueIsNewToCustomers | controllers/oCustomerContactController.go:170-215 | a created phone is no customer's primary mobile, and a created e-mail no customer's address |
| Contacts.UpdateContactStatus | controllers/oCustomerContactController.go:240-359 | 200 exactly when the body binds, the value is well formed, `update_` is held and no other customer or contact holds the value; 403 exactly when the body binds and is well formed but `update_` is missing; no other code |
| Contacts.WrittenContact | controllers/oCustomerContactController.go:363-390 | the written value is the trimmed one as sent, not the normalised one, while the hash is of the checked value |
| Contacts.UpdateContactRows | controllers/oCustomerContactController.go:377-390 | only the rows with the key change, each by writing the non-zero fields of the struct |
| Contacts.CheckContactUpdate | controllers/oCustomerContactController.go:260-359 | the checks, in order, give exactly the status function's code |
| Contacts.CheckCheckedUpdate | controllers/oCustomerContactController.go:265-359 | the same checks, on the value once trimmed and normalised |
| Contacts.UpdateCustomerContact | controllers/oCustomerContactController.go:240-400 | a failed check answers its code and changes nothing; otherwise the write is done |
| Contacts.WriteContactUpdate | controllers/oCustomerContactController.go:363-398 | 500 and no change when no contact has the key; otherwise the rows are updated, one update event is appended and 200 is answered |
| Contacts.EmailUpdateKeepsUnique | controllers/oCustomerContactController.go:339-390 | an accepted e-mail update keeps the contact table unique |
| Contacts.UpdateContactKeepsUnique | controllers/oCustomerContactController.go:377-390 | updating a row with an empty value or one no other row holds keeps the table unique |
| Contacts.PhoneUpdateCanDuplicate | controllers/oCustomerContactController.go:260-390 | a phone update is accepted on the normalised value but stores the value as sent, which can duplicate another contact |
| Contacts.WrittenHeldValueDuplicates | controllers/oCustomerContactController.go:260-377 | writing a value whose trimmed text another contact holds leaves two contacts with the same value |
| Contacts.CustomerContactsQuery | controllers/oCustomerContactController.go:76-79 | the query carries the customer filter, and a `c.branch IN` filter exactly without read-all, whose list is the visible branches |
| Contacts.GetCustomerContacts | controllers/oCustomerContactController.go:56-93 | the query uses the customer key from the path, with read-all meaning `read_` on customers and the branches of `GetBranches` |
| Contacts.ContactsScopedToVisibleBranches | controllers/oCustomerContactController.go:76-79 | for a user without read-all, the query carries a `c.branch IN` filter whose list holds exactly the branches of the user's active assignments and the user's positive own branch |
| Guarantors.CheckGuarantorDuplicate | controllers/oCustomerGuarantorController.go:112-137 | the three lookups, in order, find a duplicate exactly when the duplicate rule is broken |
| Guarantors.SameGuarantorCheckIsSubsumed | controllers/oCustomerGuarantorController.go:112-137 | the first check never decides anything: when it holds, the national id check holds too |
| Guarantors.Normalized | controllers/oCustomerGuarantorController.go:96-99 | the mobile is normalised, the name and national id are trimmed, and the key and customer are kept |
| Guarantors.CreateGuarantorStatus | controllers/oCustomerGuarantorController.go:85-137 | 200 exactly when `update_` is held, the phone is valid and nothing is duplicated; 403 exactly without the permission; only 200, 400 or 403 |
| Guarantors.NewGuarantor | controllers/oCustomerGuarantorController.go:136-149 | the inserted guarantor has a fresh key, status 1, the request time and the prepared mobile and national id |
| Guarantors.PrepareNewGuarantor | controllers/oCustomerGuarantorController.go:85-146 | the status of the checks, and on success the row to insert |
| Guarantors.CreateCustomerGuarantor | controllers/oCustomerGuarantorController.go:63-161 | 400 when the body does not bind; only a successful call appends a row, the prepared one; the table stays unique |
| Guarantors.NewGuarantorKeepsUnique | controllers/oCustomerGuarantorController.go:112-149 | a created guarantor keeps the table unique |
| Guarantors.AppendGuarantorKeepsUnique | controllers/oCustomerGuarantorController.go:149 | appending a row with a fresh key, national id and mobile keeps the table unique |
| Guarantors.UpdateGuarantorStatus | controllers/oCustomerGuarantorController.go:185-254 | 201 exactly when `update_` is held, the phone is valid, no other guarantor duplicates the input and the guarantor exists; 403 exactly when `update_` is missing; 404 only for a missing guarantor; no other code |
| Guarantors.WrittenGuarantor | controllers/oCustomerGuarantorController.go:256-267 | the written struct has an empty added date, the input's key and the normalised mobile |
| Guarantors.WrittenGuarantorKeepsCodes | controllers/oCustomerGuarantorController.go:202-203 | 64-bit relationship and status codes survive their conversion unchanged |
| Guarantors.UpdateGuarantorRows | controllers/oCustomerGuarantorController.go:269-281 | only the rows with the key change, each by writing the non-zero fields of the struct |
| Guarantors.GuarantorChangeLines | controllers/oCustomerGuarantorController.go:286-295 | one "changed from" line per visited key |
| Guarantors.GuarantorEventDetails | controllers/oCustomerGuarantorController.go:286-300 | the loop builds the event text for some visiting order of the modified fields |
| Guarantors.CheckGuarantorUpdate | controllers/oCustomerGuarantorController.go:185-254 | the checks, in order, give exactly the status function's code |
| Guarantors.UpdateCustomerGuarantor | controllers/oCustomerGuarantorController.go:163-317 | a failed check answers its code and changes nothing; on 201 the rows are updated and one event lists the diff of the loaded original and the written struct; the table stays unique |
| Guarantors.LogGuarantorUpdate | controllers/oCustomerGuarantorController.go:284-302 | exactly one event is appended, the guarantor update event |
| Guarantors.GuarantorEventLogged | controllers/oCustomerGuarantorController.go:284-302 | the event built from the diff is a guarantor update event |
| Guarantors.UpdatedGuarantorKeepsUnique | controllers/oCustomerGuarantorController.go:213-281 | an update that passed the duplicate checks keeps the table unique |
| Guarantors.UpdateGuarantorRowKeepsUnique | controllers/oCustomerGuarantorController.go:269-281 | updating a row with values no other row holds keeps the table unique |
| Guarantors.GuarantorChangeReported | controllers/oCustomerGuarantorController.go:284-300 | every modified field appears in the event as "field changed from old to new" |
| Guarantors.GuarantorChangeLinesAt | controllers/oCustomerGuarantorController.go:290-295 | line `i` describes key `i` of the visiting order |
| Guarantors.GuarantorLineInBody | controllers/oCustomerGuarantorController.go:290-296 | every change line occurs in the joined list |
| Guarantors.LineInGuarantorText | controllers/oCustomerGuarantorController.go:286-300 | every change line occurs in the event text |
| Base.InfixBehindPrefix | controllers/oCustomerGuarantorController.go:296 | text found in the body is found in the header followed by the body |
| Guarantors.GuarantorKeyAndDateNeverReported | controllers/oCustomerGuarantorController.go:284 | the key and the added date are never reported |
| Guarantors.GuarantorsOf | controllers/oCustomerGuarantorController.go:348 | exactly the guarantors of the customer |
| Guarantors.GetCustomerGuarantors | controllers/oCustomerGuarantorController.go:319-367 | 403 and no rows without `read_` on customers; otherwise 200 and that customer's guarantors |
| Guarantors.GetCustomerGuarantor | controllers/oCustomerGuarantorController.go:21-61 | 403 without `read_` on customers; otherwise the guarantor with the key |
| Referees.RefereeCount | controllers/oCustomerRefereeController.go:148 | the count is positive exactly when another referee of the customer has the same mobile, name and e-mail |
| Referees.Prepared | controllers/oCustomerRefereeController.go:130-141 | the mobile is normalised, the name and e-mail are trimmed, and the rest is kept |
| Referees.CreateRefereeStatus | controllers/oCustomerRefereeController.go:123-163 | 200 exactly when `create_` is held, the phone is valid, the referee is new and the key is free; 403 exactly when `create_` is missing; 400 otherwise |
| Referees.NewReferee | controllers/oCustomerRefereeController.go:130-156 | the inserted referee has a fresh key, the request time and the prepared mobile, name and e-mail |
| Referees.PrepareNewReferee | controllers/oCustomerRefereeController.go:123-156 | the status of the checks, and on success a fresh row that duplicates no referee |
| Referees.CreateCustomerReferee | controllers/oCustomerRefereeController.go:100-165 | 400 when the body does not bind; only a successful call appends a row; no customer gets the same referee twice |
| Referees.AppendRefereeKeepsUnique | controllers/oCustomerRefereeController.go:148-156 | appending a fresh, non-duplicate referee keeps the table unique |
| Referees.UpdateRefereeStatus | controllers/oCustomerRefereeController.go:187-212 | 200 exactly when the key is non-zero, `update_` is held and the phone is valid; 403 exactly for a non-zero key without `update_`; 400 otherwise; the table is never consulted |
| Referees.StoredReferee | controllers/oCustomerRefereeController.go:228 | the row with the key, or the zero struct when there is none |
| Referees.UpdateRefereeRows | controllers/oCustomerRefereeController.go:231 | only the rows with the key change, each by writing the non-zero fields |
| Referees.UpdateCustomerReferee | controllers/oCustomerRefereeController.go:167-244 | a failed check answers its code and changes nothing; on 200 the rows are updated and one event compares the stored row (or the zero struct) with the input |
| Referees.UpdateKeepsRefereeKeys | controllers/oCustomerRefereeController.go:231 | an update never changes a key, so keys stay unique |
| Referees.UpdateCanDuplicateReferee | controllers/oCustomerRefereeController.go:224-231 | because the duplicate count is never consulted, an accepted update can give a customer the same referee twice |
| Referees.MergeDuplicates | controllers/oCustomerRefereeController.go:231 | writing another referee's mobile, name and e-mail into a row duplicates it |
| Referees.GetCustomerReferee | controllers/oCustomerRefereeController.go:16-59 | 400 for a missing key before the permission is asked; 403 without `read_`; otherwise the referee with the key |
| Referees.RefereesOf | controllers/oCustomerRefereeController.go:84 | exactly the referees of the customer |
| Referees.GetCustomerReferees | controllers/oCustomerRefereeController.go:61-98 | 403 and no rows without `read_`; otherwise 200 and that customer's referees |
| Users.EmailStatus | controllers/oUserController.go:46-67 | 200 exactly when the trimmed e-mail is present, well formed and unused |
| Users.PhoneStatus | controllers/oUserController.go:70-84 | 200 exactly when the normalised phone is valid and unused |
| Users.NationalIdStatus | controllers/oUserController.go:88-101 | 200 exactly when the national id is present and unused |
| Users.SignupInput | controllers/oUserController.go:46-122 | e-mail, national id, name and password are trimmed and the phone normalised |
| Users.SignupStatus | controllers/oUserController.go:25-159 | 200, 400 or 500; 500 only for a failed hash or a taken key; 200 exactly when the e-mail, phone and national id checks pass, the name is present, the password has six characters, the user group is set, the hash works and the key is free |
| Users.SignupAcceptsOnlyValid | controllers/oUserController.go:46-150 | an accepted signup has a well-formed unused e-mail, a valid unused phone, an unused national id, a name, a password of six or more characters and a group |
| Users.CompanyId | controllers/oUserController.go:144-149 | COMPANY_ID when it parses, else 1 |
| Users.SignedUpUser | controllers/oUserController.go:136-156 | the inserted user has a fresh key, the bcrypt hash in place of the password, the join time and the prepared details |
| Users.CheckEmail | controllers/oUserController.go:46-67 | the e-mail checks, in order, give exactly the status function's code |
| Users.CheckPhone | controllers/oUserController.go:70-84 | the phone checks, in order, give exactly the status function's code |
| Users.CheckNationalId | controllers/oUserController.go:88-101 | the national id checks, in order, give exactly the status function's code |
| Users.CheckSignup | controllers/oUserController.go:46-158 | all checks, in the handler's order, give exactly the status function's code |
| Users.PrepareSignup | controllers/oUserController.go:40-150 | the status of the checks on the prepared input, and on success the row to insert |
| Users.Signup | controllers/oUserController.go:25-159 | 400 when the body does not bind; only a successful call appends a user, the prepared one; no two users share a key, e-mail, phone or national id |
| Users.AppendUserKeepsUnique | controllers/oUserController.go:151-156 | appending a user with a fresh key, e-mail, phone and national id keeps the table unique |
| Users.UserByEmail | controllers/oUserController.go:204-209 | a user with the e-mail and no such user before it; none exactly when no user has it |
| Users.UserByPhone | controllers/oUserController.go:198-202 | a user with the phone and no such user before it; none exactly when no user has it |
| Users.LookupUser | controllers/oUserController.go:183-210 | a valid e-mail address is looked up by e-mail and found exactly when some user has it; anything else by the normalised phone: 400 exactly when that phone is invalid, otherwise the first user with the phone, found exactly when some user holds it; a failed lookup answers 400 or 500 |
| Users.LoginAs | controllers/oUserController.go:183-227 | a user is sent only when found by the lookup and the password matches the stored hash; 200 exactly when a user is sent and the password is not empty |
| Users.Login | controllers/oUserController.go:161-278 | 400 when the body does not bind; otherwise the answer for the trimmed username and password |
| Users.SignupThenLogin | controllers/oUserController.go:25-227 | a user who signed up can log in with the e-mail and password used to sign up |
| Users.LoginAsNewUser | controllers/oUserController.go:183-227 | a new user whose e-mail no one else has logs in with a matching password |
| Users.LookupFindsNewUser | controllers/oUserController.go:203-209 | the lookup finds an appended user by an e-mail no earlier user has |
| Users.LoginWithFoundUser | controllers/oUserController.go:216-227 | once the lookup finds a user whose hash matches a non-empty password, the login succeeds |
| Users.FirstOfAppended | controllers/oUserController.go:203-209 | the first user with an e-mail no earlier user has is the appended one |
| Users.EmptyPasswordNeverLogsIn | controllers/oUserController.go:216-227 | an empty password never gives 200, even when bcrypt matches |
| Users.EmailUsernameFindsByEmail | controllers/oUserController.go:190-210 | a username that is a valid e-mail address is never read as a phone number |
| Users.PhoneUsernameFindsByPhone | controllers/oUserController.go:190-202 | any other username can only log in as a user with its normalised phone, and a valid normalised phone held by some user logs in as the first such user when the password matches |
| Users.FindUserById | controllers/oUserController.go:335-373 | 400 for a missing key; 500 when no user has the key or its join date is too short to cut; otherwise 200 with the join date cut to a date-time |
| Users.FoundUserDateIsFormatted | controllers/oUserController.go:370 | the join date answered has 19 characters and keeps every character that is not 'T' |

## Behaviour worth knowing

- Grants: a grant's action flag never matters. The grant query compares the action *name* with 1 (`? = ?`), not the flag column, so a grant with flag 0 authorizes like one with flag 1 (`Permissions.GrantFlagsIrrelevant`). MySQL's verdict on that comparison is the `actionClause` predicate.
- Duplicates: a duplicate phone, e-mail or national id answers 400, not a dedicated conflict status.
- Visible branches: `GetBranches` can repeat a branch. It only avoids repeating the user's own branch, so a branch that two active assignments name appears twice (`Permissions.VisibleBranchesMembers` states membership only).
- Guarantor update: it answers 201 on success, where the other updates answer 200.
- Referee update: the duplicate count is computed and never consulted (`Referees.UpdateCanDuplicateReferee`). A missing referee is logged against the zero struct, and 200 is answered.
- Contact phone update: the checks run on the normalised phone, but the value written is the trimmed text as sent (`Contacts.PhoneUpdateCanDuplicate`).
- Customer update:
  - the `update_` test for "other" status changes can never refuse (`Customers.OtherStatusChangeAlreadyAllowed`);
  - the row is written before the stored date of birth is cut, so a short stored date answers 500 after the write.
- Login with an empty password: it writes a 400 response but does not return. The password comparison still runs, and a match appends the success body while the status stays 400 (`Users.LoginAs`, `Users.EmptyPasswordNeverLogsIn`).
- Panics: a date shorter than the slice in `DateFormatter` or `DatetimeFormatter` panics, and the recovery middleware answers 500. This covers `FindUserByID` for a key no user has, whose empty join date is cut. A negative length in `TruncateString` panics too (`None`).
- `FormatDate(_, 19)` never succeeds. Any text `time.Parse` accepts for "2006-01-02T15:04:05Z" renders back with the "Z" and so has 20 or more characters, never 19.
- `MakePhoneValid` is not idempotent in general (`Utils.TabBehindPlusNotIdempotent`). It is idempotent on 12-character results (`Utils.MakePhoneValidIdempotent`).

## Left out

- These are outside the modelled core:
  - the scheduled sync job `SyncSpCCVintagesWithPesaflow`;
  - `ValidateToken`, `ValidateUser` and the authentication middleware;
  - `SwitchDB`, `Login2`, `ChangePassword` and `Logout`;
  - the conversation controller and `loansUtil.go`;
  - the small helpers `ToggleIcon`, `PathParamToStringWithDefault` and `GetDBConn`.
- `StoreEvent` is the same insert as `LogEvent`, which `Store.Database.LogEvent` models.
- `FindManyUsers` and `FindManyCustomers` are not modelled as handlers. Only their query builders are (`Queries`); paging, counting and the SQL text of the joins are left out.
- Contacts.ContactsScopedToVisibleBranches: states the `c.branch IN` filter the query carries, not which contacts come back. The contact record (models/oCustomerContactModel.go:12-20) has no branch column, so the rows the database returns for that filter, or whether the query fails, are not modelled.
- Utils.TruncateString: a negative length is the slice panic; the model returns `None` for it rather than a 500 answer, since no handler in the model calls it.
- Records.First: returns the first matching row in table order. The ORM's `First` orders by primary key; the two agree while rows are appended in key order, which every insert of the model does only when keys are assigned by `NextUid`.
- `GetCustomerContact` (a single contact) is not modelled. `GetCustomerContacts` is modelled as the query it builds (`Contacts.CustomerContactsQuery`), not as rows read back.
- Guarantor and referee reads return the table rows. The names the handlers join in (relationship and customer names) are left out.
- `FindUserByID` and `FindCustomerById` return the row. The joined group, status, agent and branch names are left out.
- Login answers its status code and the user whose data is sent. The JWT, its expiry time and `GetUserGroupName` are left out, because they depend on the clock and on tables outside the core.
- `GetCountryCode`, `COMPANY_ID` and the other environment reads are the `Config` value. `os.Getenv`, `godotenv` and the company settings table are not modelled.
- Utils.MakePhoneValid: `cc` is the integer `fmt.Sscanf("%d")` reads from COUNTRY_CODE, passed in already parsed. Sscanf's reading of a text with trailing garbage is not modelled.
- Permissions.GetPermission: the MySQL evaluation of `'<action>' = 1` is the `actionClause` predicate, not a model of MySQL's string-to-number conversion.
- Database errors are not modelled, except the failing permission lookups (`Faults`) and the failing customer load (`recordLoadFails`). Neither are timeouts and lost connections.
- A failed insert of an audit event is only printed, so `Store.Database.LogEvent` always appends.
- MySQL's case- and trailing-space-insensitive comparison of strings is not modelled: the duplicate checks compare exactly.
- The `varchar` limit of the event text, and the truncation MySQL may apply, are not modelled.
- `%v` of the nullable `enc_phone` prints a memory address, which is not modelled: a fixed text stands for it. The contact change log ignores that field, so no event shows it.
- Floating-point amounts and `time.Time` values are opaque values known by their `%v` rendering. Their arithmetic and time-zone conversion are not modelled.
- `reflect.DeepEqual` is modelled on the field kinds the records hold (integers, strings, opaque floats and times, nullable strings), not on arbitrary Go values.
- Gin binding and validator rules are abstracted: a body that fails to bind is `None`, except for contacts, whose binding rules are written out (`Contacts.ContactBinds`). The messages of `GetErrorMsg` are modelled, not the per-field error list.
- SHA-256 and bcrypt are functions passed in (`Crypto`). Their cryptographic properties are not modelled.
- Strings are sequences of characters. Go indexes strings by byte, which agrees for ASCII text only, so byte slicing of non-ASCII text is left out.
- `PascalCaseToSeparatedWords` is modelled on ASCII letters. `unicode.IsUpper` and `unicode.ToLower` beyond ASCII are not.
- Concurrent requests are not modelled: each handler runs to completion against the database.
