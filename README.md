# boocat in Dafny

boocat is a small web catalogue of books and authors, kept in several successive versions of one design. A **format** is a schema: named fields, an optional validator for each, and a set of searchable fields. A **record** is a `map[string]string` whose reserved key `"id"` holds its identifier. A **record service** validates records before handing them to a **record store** and maps the store's errors into a small error taxonomy. A thin **web dispatcher** chooses the operation and the HTTP status of each request.

This project models each version's logic, file by file, and proves what the code promises:

- **Formats:** field validation into a failure map; the completeness check and the merge of a partial record with a stored one; the searchable-set test; the template field builders.
- **Record services:** boocat/boocat.go and server/server.go, with their error types. Validation gates every write, store errors map into the taxonomy, and `fillFromDatabase` merges the stored record.
- **Record stores:**
  - the two in-memory test databases, as classes over maps and sequences;
  - the MongoDB adapters, with the startup reconciliation of their text indexes against a modelled index listing;
  - the SQLite adapter, over a table of `(format, record_id, field, value)` rows, with its transactions.
- **Validators and page handlers:** main.go, boocat.go and strki.go.
- **Web layer:**
  - the decision tables of the web servers (method and parameters to operation, error to status);
  - the merging of query and form values;
  - the rules that derive the URL path of a template or static file from its file path.

The world outside the code is passed in as parameters:

- **Drivers and databases:** every reply a database driver or a record store would give is a parameter. Each operation returns the call it made, so "the store is not called" can be stated.
- **HTTP:** the request's query and form are parameters. The handler's decision is returned rather than written.
- **Regular expressions:** each is a matcher parameter.
- **Random draws:** the SQLite adapter's random id draws are a parameter.
- **Go map iteration order:** it is unspecified, so a loop over a map picks its next key with `:|`.
- **Integers:** Go's `int` is 64 bits wide; where that matters (`strconv.Atoi`), the bound is written out.

## Model

| member | source | states |
|---|---|---|
| BoocatErrors.NewUnexpected | boocat/errors/errors.go:25-27 | the UnexpectedError made for an error unwraps to exactly that error |
| BoocatErrors.Errorfv | boocat/boocat.go:63 | an error formatted with %v keeps the inner message after the prefix and wraps nothing |
| BoocatErrors.SentinelMessages | boocat/errors/errors.go:14-19 | the four sentinels carry "format not found", "record not found", "record has ID", "record doesn't have ID" |
| BoocatErrors.SentinelMessagesDistinct | boocat/errors/errors.go:14-19 | two different sentinels never have the same message |
| BoocatErrors.UnwrapNewUnexpected | boocat/errors/errors.go:25-35 | Unwrap of NewUnexpectedError(e) is e, so errors.Is finds e through it |
| BoocatErrors.UnexpectedMessage | boocat/errors/errors.go:29-31 | an UnexpectedError's message is "internal error: " followed by the wrapped message |
| BoocatErrors.ValidationFailedMessage | boocat/errors/errors.go:37-39 | a ValidationFailedError's message is "validation failed" whatever failures it carries, and it carries its map unchanged |
| BoocatErrors.ErrorfvHidesSentinel | boocat/boocat.go:55-64 | an error rebuilt with %v is never matched by errors.Is against a sentinel |
| BoocatErrors.IsThroughWrappers | boocat/errors/errors.go:33-35 | errors.Is finds its target through any chain of UnexpectedError and %w wrappers |
| BoocatErrors.AtMostOneSentinel | boocat/errors/errors.go:14-19 | an error matches at most one sentinel under errors.Is, so the order of sentinel cases in a switch never matters |
| ServerErrors.AtMostOneSentinel | server/errors/errors.go:7-12 | an error matches at most one of the server sentinels under errors.Is |
| ServerErrors.AsBoocat | server/errors/errors.go:7-12 | every server sentinel has a boocat sentinel counterpart |
| ServerErrors.SentinelMessagesMatchBoocat | server/errors/errors.go:7-12 | each server sentinel's message is the message of its boocat counterpart |
| ServerErrors.InternalServerCarriesNothing | server/errors/errors.go:18-20 | all InternalServerError values are equal and their message is "internal server error" |
| ServerErrors.ValidationFailedCarriesMap | server/errors/errors.go:14-24 | a ValidationFailedError keeps the failure map unchanged and its message is always "validation failed" |
| BoocatFormats.ValidateKeys | boocat/formats.go:25-40 | of `BoocatFormats.Validate` (Format.Validate, the map from each failing field to its reason): the failure map names only fields of the record and never "id" |
| BoocatFormats.ValidateUndeclared | boocat/formats.go:35-37 | a field the format does not declare fails with "not a field of format '<Name>'" |
| BoocatFormats.ValidateNilValidator | boocat/formats.go:29-30 | a declared field with a nil validator never fails |
| BoocatFormats.ValidateWithValidator | boocat/formats.go:29-33 | a declared field with a validator fails exactly when the validator returns a non-empty reason, and that reason is recorded |
| BoocatFormats.ValidateEmptyIffAccepts | boocat/formats.go:25-40 | validation finds no failure exactly when every non-id field is declared and passes its validator |
| BoocatFormats.ZeroFormatRejectsEveryField | boocat/formats.go:35-37 | the zero Format reports every non-id field as not a field of format '' |
| BoocatFormats.SearchableAreIffEqual | boocat/formats.go:44-54 | SearchableAre holds exactly when the given names and the searchable names are the same set |
| ServerFormats.IncompleteRecordIffMissing | server/formats/formats.go:25-32 | IncompleteRecord holds exactly when some declared field is missing from the record |
| ServerFormats.Merge | server/formats/formats.go:36-52 | the merged record's keys are the declared fields and "id" that either record holds |
| ServerFormats.Restrict | server/formats/formats.go:36-52 | the reference for Merge: a map kept to a set of keys, values unchanged |
| ServerFormats.MergeIsRestrictedUnion | server/formats/formats.go:36-52 | Merge is the union of both records with the first winning, kept to the declared fields and "id" |
| ServerFormats.MergeDropsUndeclared | server/formats/formats.go:36-52 | an undeclared key other than "id" never reaches the merged record |
| ServerFormats.MergeValue | server/formats/formats.go:38-50 | a declared field or "id" takes the first record's value, else the second's, else is left out |
| ServerFormats.MergeComplete | server/formats/formats.go:24-44 | merging with a stored record that has every declared field gives a record that is not incomplete |
| ServerFormats.MergeIdempotent | server/formats/formats.go:36-52 | merging the result again with the same stored record changes nothing |
| ServerFormats.MergeKeepsFullRecord | server/formats/formats.go:36-52 | a record holding exactly the declared fields and "id" merges to itself |
| Formats.Registry.constructor | formats/formats.go:24 | before Initialize the registry holds no format |
| Formats.Registry.Initialize | formats/formats.go:27-55 | afterwards the registry holds exactly the author and book formats |
| Formats.Registry.Get | formats/formats.go:58-61 | the registered format and true exactly when the name is registered, else the zero format and false |
| Formats.Registry.FormatForTemplate | formats/formats.go:65-72 | a found format's name ends the template name; not found means no registered name does |
| Formats.Merge | formats/formats.go:86-102 | the same law as ServerFormats.Merge: declared fields and "id" only, the first record winning |
| Formats.ValidateFlagsExactlyRejected | formats/formats.go:105-121 | of `Formats.Validate` (Format.Validate, the map of fail keys): the fail key "_<name>_fail" is set, to "_", exactly for the undeclared fields and the fields their validator refuses |
| Formats.ValidateKeysAreFailKeys | formats/formats.go:105-121 | every key of the result is the fail key of a rejected field |
| Formats.ValidateNeverFlagsId | formats/formats.go:108 | "id" is never validated, so never flagged |
| Formats.ValidateEmptyIffAccepted | formats/formats.go:105-121 | nothing is flagged exactly when every non-id field is declared and accepted |
| RootFormat.GetFormatTable | format.go:36-84 | of `RootFormat.GetFormat` (getFormat): getFormat knows exactly "author" (name, birthdate) and "book" (name, year), in that field order, and fails with "format not found" otherwise |
| RootFormat.TemplateFields | format.go:87-98 | one entry per field, in order, copying name, label and description, with an empty value and no failure |
| RootFormat.ValidatedFieldsEntries | format.go:106-127 | of `RootFormat.ValidatedFieldsWithValue` (validatedFieldsWithValue): one entry per field, in field order; the value is the submitted one when present, else empty and not failed; failed exactly when a value is present, a validator exists and it refuses the value |
| RootFormat.ValidatedFieldsFlag | format.go:108-125 | the returned flag is true exactly when some entry failed |
| RootFormat.ValidatedFieldsIgnoreOtherKeys | format.go:110-115 | submitted keys that are not field names do not change the result |
| RootFormat.TemplateFieldsAreUnsubmitted | format.go:87-130 | templateFields is validatedFieldsWithValue with nothing submitted, and then nothing fails |
| RootFormat.LabelValuesKeys | format.go:134-142 | of `RootFormat.LabelValues` (labelValues): the keys are exactly the labels of the fields |
| RootFormat.LabelValuesValue | format.go:138-139 | a label maps to the submitted value under its field's name, or "" when absent |
| BoocatService.Boocat.constructor | boocat/boocat.go:24-27 | the zero Boocat has no formats and no database |
| BoocatService.Boocat.SetDatabase | boocat/boocat.go:30-33 | the database is set and the formats are unchanged |
| BoocatService.Boocat.SetFormat | boocat/boocat.go:36-42 | the format is registered under the name; every other entry and the database are unchanged |
| BoocatService.Boocat.GetRecord | boocat/boocat.go:50-65 | without a database an UnexpectedError and no call; otherwise the record, or format-not-found and record-not-found passed through (by errors.Is), or any other error wrapped as an UnexpectedError |
| BoocatService.Boocat.ListRecords | boocat/boocat.go:68-81 | without a database an UnexpectedError and no call; otherwise the records, or format-not-found, or any other error wrapped as an UnexpectedError |
| BoocatService.Boocat.SearchRecords | boocat/boocat.go:84-97 | as ListRecords, for the database's search |
| BoocatService.Boocat.AddRecord | boocat/boocat.go:100-119 | without a database an UnexpectedError; a record the format refuses gives ValidationFailedError with the failure map and no database call; otherwise the new id, or format-not-found or has-ID passed through, or any other error wrapped |
| BoocatService.Boocat.UpdateRecord | boocat/boocat.go:122-142 | as AddRecord's gate; after the call only format-not-found and doesn't-have-ID pass through, so a store record-not-found is wrapped as an UnexpectedError |
| BoocatService.UnregisteredFormatRejects | boocat/boocat.go:104-108 | with a name that is not registered the zero Format is used, which refuses every non-id field as not a field of format '' |
| ServerService.Server.constructor | server/server.go:13 | before Initialize no database is set |
| ServerService.Server.Initialize | server/server.go:16-18 | the database is set to the one given |
| ServerService.Server.GetRecord | server/server.go:21-34 | the record, or format-not-found and record-not-found passed through (by errors.Is), or InternalServerError for any other error |
| ServerService.Server.ListRecords | server/server.go:37-48 | the records, or format-not-found passed through, or InternalServerError |
| ServerService.Server.SearchRecords | server/server.go:51-62 | as ListRecords, for the database's search |
| ServerService.Server.AddRecord | server/server.go:65-83 | a refused record gives ValidationFailedError and no store call; otherwise the id, or format-not-found or has-ID passed through, or InternalServerError |
| ServerService.Server.UpdateRecord | server/server.go:86-104 | the same validation gate; only format-not-found and doesn't-have-ID pass through; the record is written as given, without fillFromDatabase |
| ServerService.Server.FillFromDatabase | server/server.go:108-117 | a complete record is returned unchanged with no lookup; an incomplete one is merged with the stored record, its own values winning, or returned unchanged when the lookup fails |
| BoocatMock.Get | boocat/boocat_test.go:67-81 | `BoocatMock.MockDB.GetRecord` is `Get` on the store's slices (MockDB.GetRecord): a record is found exactly when the format is known and the id parses to a position inside its slice; otherwise format-not-found, the conversion error, or record-not-found |
| BoocatMock.GetByOwnId | boocat/boocat_test.go:40-42 | in a store whose ids are positions, every record is found again under its own id |
| BoocatMock.AppendKeepsIds | boocat/boocat_test.go:40-42 | appending a record whose id is the new last position keeps every id a position |
| BoocatMock.GetAfterAppend | boocat/boocat_test.go:40-42 | after an append, the decimal form of the old length finds the appended record |
| BoocatMock.ReplaceKeepsIds | boocat/boocat_test.go:62 | replacing a slot by a record whose id names that slot keeps every id a position |
| BoocatMock.MatchesSearchIgnoresCase | boocat/boocat_test.go:121-128 | lower-casing the search term first does not change whether a record matches |
| BoocatMock.EmptySearchMatchesAny | boocat/boocat_test.go:121-128 | the empty term matches every record that has a field |
| BoocatMock.Filter | boocat/boocat_test.go:99-105 | the matching records of a slice: no more than the slice holds, and exactly the ones that match |
| BoocatMock.MockDB.NewDB | boocat/boocat_test.go:23-30 | empty slices for "author" and "book" only |
| BoocatMock.MockDB.AddRecord | boocat/boocat_test.go:33-44 | a record with an id is refused before the format check; an unknown format is refused; otherwise the id is the decimal form of the slice length, written into the record, the record is appended, other formats are unchanged, and the id finds the record again |
| BoocatMock.MockDB.UpdateRecord | boocat/boocat_test.go:47-64 | a missing id, an unknown format, an id that is not an integer and an id outside the slice are refused in that order, leaving the store unchanged; otherwise that slot is replaced, the length kept, and the id finds the new record |
| BoocatMock.MockDB.GetAllRecords | boocat/boocat_test.go:84-90 | the format's whole slice in order, or format-not-found |
| BoocatMock.MockDB.SearchRecord | boocat/boocat_test.go:94-106 | the records that match, in stored order, or format-not-found |
| BoocatMock.MockDB.ReferenceValidate | boocat/boocat_test.go:109-118 | "" exactly when the referenced record is found |
| BoocatMock.ValidateYear | boocat/boocat_test.go:380-390 | "" exactly for an integer of at least 0; "not a valid year number" when it does not parse; "Invalid year" when it is negative |
| TestsMock.IdForInjective | tests/mockdb.go:136-144 | a set's ids for two counter values are equal only when the values are, so an id nextID gives differs from every id it gave before (an id UpdateRecord stored under a name nextID later reaches is not excluded) |
| TestsMock.IdsOfSize | tests/mockdb.go:87-93 | a listing with no repeated id has as many ids as entries |
| TestsMock.ListingCoversAll | tests/mockdb.go:84-96 | a listing of the records with no repeat and as long as the map names every stored record |
| TestsMock.SearchStep | tests/mockdb.go:104-108 | visiting one more record, and appending it when it matches, keeps the listing exactly the visited records that match |
| TestsMock.RecordSet.constructor | tests/mockdb.go:32-41 | a set starts with its name, the counter at 0 and no records |
| TestsMock.RecordSet.NextID | tests/mockdb.go:141-144 | the counter grows by one and the id is the name and the new count, different from every id given before |
| TestsMock.MockDB.NewDB | tests/mockdb.go:29-44 | fresh, empty "author" and "book" sets with their counters at 0 |
| TestsMock.MockDB.AddRecord | tests/mockdb.go:47-58 | an unknown format is refused first, then a record with an id; otherwise the set's next id is written into the record, which is stored under it; no other set changes |
| TestsMock.MockDB.UpdateRecord | tests/mockdb.go:61-70 | an unknown format, then a missing id, are refused; otherwise the record is stored under its id whether or not one was there (an upsert) |
| TestsMock.MockDB.GetRecord | tests/mockdb.go:73-81 | fails exactly when the format or the id is unknown, with "format not found" or "unknown record <id>" |
| TestsMock.MockDB.GetAllRecords | tests/mockdb.go:84-96 | every stored record of the format exactly once, as many as the set holds |
| TestsMock.MockDB.SearchRecord | tests/mockdb.go:100-112 | once each, exactly the stored records that match the term |
| TestsMock.MockDB.ReferenceValidate | tests/mockdb.go:115-121 | a value is accepted exactly when GetRecord finds it |
| TestsMock.MockDB.LastID | tests/mockdb.go:126-133 | the id of the set's most recent add, or "" for an unknown format |
| MongoIndexes.WeightFields | boocat/mongodb/mongodb.go:214-220 | the fields of a text index are the keys of its "weights" document, or none when it has none |
| MongoIndexes.FirstTextIndex | boocat/mongodb/mongodb.go:199-229 | none exactly when no listed index is a text index; otherwise the name and fields of the first one |
| MongoIndexes.FindTextIndex | boocat/mongodb/mongodb.go:192-230 | the walk over the listing finds exactly FirstTextIndex, and the zero index with false when there is none |
| MongoIndexes.KeyNamesAppend | boocat/mongodb/mongodb.go:235-237 | appending a key adds exactly its field name |
| MongoIndexes.TextIndexModel | boocat/mongodb/mongodb.go:233-241 | the keys are exactly the searchable fields, each once, each with value "text" |
| MongoIndexes.CreatedIndexDoc | boocat/mongodb/mongodb.go:70 | the index the server lists after CreateOne is a text index over the model's fields |
| MongoIndexes.Dropped | boocat/mongodb/mongodb.go:66 | after DropOne the listing holds every index but the ones of that name |
| MongoIndexes.ReconcileAction | boocat/mongodb/mongodb.go:62-81 | no text index means create; one whose fields equal the searchable set is kept; any other is dropped and re-created |
| MongoIndexes.AppendToNoTextIndex | boocat/mongodb/mongodb.go:75-81 | creating the index on a collection without one makes it the only and first text index |
| MongoIndexes.ReconcileIdempotent | boocat/mongodb/mongodb.go:62-75 | after one reconciliation, a second pass over what the server lists back keeps the index and changes nothing |
| MongoIndexes.IndexServer.constructor | boocat/mongodb/mongodb.go:61 | the server starts with the given listings |
| MongoIndexes.IndexServer.Listing | boocat/mongodb/mongodb.go:194 | a collection the server has not seen lists nothing |
| MongoIndexes.IndexServer.DropOne | boocat/mongodb/mongodb.go:66 | only that collection's listing changes, losing the named index |
| MongoIndexes.IndexServer.CreateOne | boocat/mongodb/mongodb.go:70 | only that collection's listing changes, gaining the new text index |
| MongoIndexes.ReconcileFormat | boocat/mongodb/mongodb.go:59-81 | the format's collection ends with one text index over exactly its searchable fields; no other collection changes |
| MongoIndexes.InitializeCollections | boocat/mongodb/mongodb.go:55-84 | every format gets a collection named after it, each reconciled; collections of no format are untouched |
| MongoIndexes.SplitID | boocat/mongodb/mongodb.go:244-255 | the "id" value ("" when absent) and every other field unchanged, without "id" |
| MongoIndexes.SplitIDJoin | boocat/mongodb/mongodb.go:244-255 | putting the id back into what splitID separated gives the record again |
| MongoIndexes.DocumentToRecord | boocat/mongodb/mongodb.go:267-274 | "_id" is renamed to "id" and nothing else changes; a document without "_id" is returned as it is |
| MongoIndexes.SplitConvertedDocument | boocat/mongodb/mongodb.go:244-274 | splitID of a converted document recovers its "_id" and its other fields |
| MongoIndexes.DocumentsToRecords | boocat/mongodb/mongodb.go:258-264 | one record per document, converted, in the same order |
| MongoBoocat.MongoDB.NewMongoDB | boocat/mongodb/mongodb.go:49-51 | a connected client with no collections |
| MongoBoocat.MongoDB.InitializeCollections | boocat/mongodb/mongodb.go:55-84 | one collection per format, keyed by the format's name, each with its text index reconciled |
| MongoBoocat.MongoDB.AddRecord | boocat/mongodb/mongodb.go:92-105 | a record with an id is refused before the format check, then an unknown format, with no insert; otherwise the insert's id or error |
| MongoBoocat.MongoDB.UpdateRecord | boocat/mongodb/mongodb.go:108-125 | an empty or missing id is refused first, then an unknown format; otherwise the fields without "id" replace the document, and anything but exactly one match is record-not-found |
| MongoBoocat.MongoDB.GetRecord | boocat/mongodb/mongodb.go:128-144 | an unknown format is refused; the found document converted, record-not-found for no document, the driver's error otherwise |
| MongoBoocat.MongoDB.GetAllRecords | boocat/mongodb/mongodb.go:147-161 | an unknown format is refused; every document converted in cursor order, or the driver's error |
| MongoBoocat.MongoDB.SearchRecord | boocat/mongodb/mongodb.go:164-178 | as GetAllRecords, for a text search |
| MongoBoocat.MongoDB.ReferenceValidate | boocat/mongodb/mongodb.go:181-189 | "" exactly when the record is read; otherwise "record of format '<f>' and ID '<v>' not found" |
| ServerDatabase.MongoDB.Initialize | server/database/database.go:60-90 | one collection per format, keyed by the format's name, each with its text index created, kept or re-created as ReconcileAction says |
| ServerDatabase.MongoDB.AddRecord | server/database/database.go:98-111 | an unknown format is refused before a record with an id, with no insert; otherwise the insert's id or error |
| ServerDatabase.MongoDB.UpdateRecord | server/database/database.go:114-131 | an unknown format is refused before an empty or missing id; otherwise the fields without "id" replace the document, and anything but exactly one match is record-not-found |
| ServerDatabase.MongoDB.GetRecord | server/database/database.go:134-150 | an unknown format is refused; no document is record-not-found; any other error passes through |
| ServerDatabase.MongoDB.GetAllRecords | server/database/database.go:153-167 | an unknown format is refused; every document converted in cursor order, or the driver's error |
| ServerDatabase.MongoDB.SearchRecord | server/database/database.go:170-184 | as GetAllRecords, for a text search |
| ServerDatabase.MongoDB.ReferenceValidate | server/database/database.go:187-195 | "" exactly when the record is read; otherwise "record of format '<f>' and ID '<v>' not found" |
| StrkiDatabase.GetFormat | database/database.go:157-203 | the author and book formats, named after their id with "name" first; "format not found" for any other id |
| StrkiDatabase.GetFormatFields | database/database.go:157-198 | author has the fields name and birthdate, book name and year; both second fields use the same year pattern and both name fields are the same |
| StrkiDatabase.DocumentToRecord | database/database.go:213-223 | DbID is the "_id" value ("" when absent) and every other key goes unchanged into FieldValues, which never holds "_id" |
| StrkiDatabase.DocumentRoundTrip | database/database.go:213-223 | a document with an "_id" is recovered from the record it converts to |
| StrkiDatabase.RecordRoundTrip | database/database.go:86-108 | with `StrkiDatabase.RecordToDocument`, the document a record stands for in the collection (its FieldValues, which AddRecord and UpdateRecord write at database/database.go:90 and 104-105, under the "_id" its DbID names): a record whose fields do not use "_id" is recovered from its document |
| StrkiDatabase.DocumentsToRecords | database/database.go:205-211 | one record per document, converted, in the same order |
| StrkiDatabase.MongoDB.Connect | database/database.go:68-76 | one collection per listed format, named after it |
| StrkiDatabase.MongoDB.AddRecord | database/database.go:86-95 | "format not found" with no insert for a format without a collection; otherwise the insert and its error |
| StrkiDatabase.MongoDB.UpdateRecord | database/database.go:99-110 | "format not found" with no call for a format without a collection; otherwise the field values replace the document with the record's DbID |
| StrkiDatabase.MongoDB.GetAllRecords | database/database.go:114-133 | "format not found" for a format without a collection; otherwise every document converted in cursor order, or the driver's error |
| StrkiDatabase.MongoDB.GetRecord | database/database.go:137-154 | "format not found" for a format without a collection; otherwise the document converted, or the driver's error as it is |
| SqliteRows.CountNone | boocat/sqlite/sqlite.go:24 | the rows an UPDATE of one field of one record matches: none exactly when no row holds that format, record id and field |
| SqliteRows.SameKeysSameCount | boocat/sqlite/sqlite.go:24 | updating values never changes which rows an UPDATE matches |
| SqliteRows.Updated | boocat/sqlite/sqlite.go:24 | the table after the UPDATEs of the given fields: same rows, same keys, new values on the matched rows |
| SqliteRows.UpdatedOneMore | boocat/sqlite/sqlite.go:128-141 | running the UPDATE of one more field after the others is the same as updating all of them at once |
| SqliteRows.UpdatedNothing | boocat/sqlite/sqlite.go:128-141 | a record with no field to update leaves the table as it is |
| SqliteRows.Fields | boocat/sqlite/sqlite.go:25 | the fields a SELECT of one record reads are exactly those some row holds |
| SqliteRows.FieldsStep | boocat/sqlite/sqlite.go:157-163 | reading one more row of the record sets its field to its value; any other row changes nothing |
| SqliteRows.FieldsValue | boocat/sqlite/sqlite.go:157-163 | a field held by exactly one row reads as that row's value |
| SqliteRows.Grouped | boocat/sqlite/sqlite.go:174-184 | one group per record id of the format, holding that record's fields |
| SqliteRows.GroupedStep | boocat/sqlite/sqlite.go:176-183 | reading one more row of the format adds its field to its record's group; rows of other formats change nothing |
| SqliteRows.RecordIDsStep | boocat/sqlite/sqlite.go:174-184 | reading one more row adds its record id exactly when it is of the format |
| SqliteRows.NoFieldsWithoutRows | boocat/sqlite/sqlite.go:157-163 | a record id that no row of the format holds reads as no fields |
| SqliteRows.SelectedNone | boocat/sqlite/sqlite.go:152-163 | a SELECT reads no row exactly when no row matches it |
| SqliteRows.SelectedStep | boocat/sqlite/sqlite.go:157-163 | reading one more row counts it exactly when the SELECT matches it |
| SqliteRows.SelectedPrefix | boocat/sqlite/sqlite.go:157-163 | the rows read before some point are never more than all the rows read |
| SqliteStore.InTransactionAsWritten | boocat/sqlite/sqlite.go:229-245 | the deferred rollback after a commit always fails, so the transaction reports "rolling transaction back: %!w(<nil>)"; with no commit and a rollback that succeeds, the function's own error |
| SqliteStore.CommittedTransactionReportsError | boocat/sqlite/sqlite.go:239-241 | as written, a function that commits and returns no error still yields an error |
| SqliteStore.InTransaction | boocat/sqlite/sqlite.go:229-245 | as intended: the function's own error, wrapped with the rollback's error only when an uncommitted rollback fails |
| SqliteStore.InTransactionSucceedsIffFunctionDoes | boocat/sqlite/sqlite.go:229-245 | the intended transaction succeeds exactly when the function does and no rollback fails, and a failing rollback is reported wrapping its own error |
| SqliteStore.Wrap | boocat/sqlite/sqlite.go:88 | an error wrapped with %w unwraps to the inner error and shows its message after the prefix |
| SqliteStore.ApplyUpdates | boocat/sqlite/sqlite.go:128-141 | no error exactly when no field's UPDATE fails (no `ExecContext` or `RowsAffected` error for it and exactly one row matched), and then the table is every field updated; otherwise the error of some failing field: "executing statement: …", "getting affected rows after updating: …" or "updated n rows, should have been 1" |
| SqliteStore.RecordsOfGroups | boocat/sqlite/sqlite.go:185-189 | one record per group with its id added under "id": no id twice and none missing |
| SqliteStore.SqliteDB.Open | boocat/sqlite/sqlite.go:43-56 | the store starts with the given table |
| SqliteStore.SqliteDB.NewRecordID | boocat/sqlite/sqlite.go:210-227 | an id exactly when some draw is free, every earlier draw is in use and no `Scan` up to it failed, and then the first free draw; "failed after 5 attempts" exactly when all five are in use and no `Scan` failed; otherwise "scanning row: …" wrapping the `Scan` error, after in-use draws only |
| SqliteStore.SqliteDB.InsertedRows | boocat/sqlite/sqlite.go:91-98 | one row per field of the record, with the format and the new id, no field twice |
| SqliteStore.SqliteDB.AddRecord | boocat/sqlite/sqlite.go:80-117 | a record with an id is refused untouched; `err` (intended transaction) is none exactly when a fresh id is found, the insert affects one row per field and the commit succeeds, and then one new row per field under that fresh random id is appended and nothing else changes; each failure (id, `ExecContext`, `RowsAffected`, row count, commit, rollback) gives its own error and leaves the table unchanged; `errAsWritten` (the code as written) is an error for every record without an id, "rolling transaction back: %!w(<nil>)" whenever the commit was reached or the rollback fails; the returned id is always "", while `storedID`, the fresh id the rows are stored under and the one evidently meant to be returned, is never ""; a record with no field has an INSERT with no VALUES row, which the driver refuses |
| SqliteStore.SqliteDB.UpdateRecord | boocat/sqlite/sqlite.go:120-148 | a record without an id is refused; "id" is removed from the caller's map; `err` (intended transaction) is none exactly when every field's UPDATE succeeds and the commit succeeds, and then only those rows' values change; otherwise the failing field's, the commit's or the rollback's error and the table unchanged; `errAsWritten` (the code as written) is an error for every record with an id, "rolling transaction back: %!w(<nil>)" whenever the commit was reached or the rollback fails |
| SqliteStore.SqliteDB.GetRecord | boocat/sqlite/sqlite.go:151-166 | "executing statement: …" when the query fails, "reading from rows: …" when a `Scan` of one of the record's rows fails, and no error otherwise: the fields of the record's rows plus "id", even for an id no row holds |
| SqliteStore.SqliteDB.GroupRows | boocat/sqlite/sqlite.go:174-184 | "reading from rows: …" exactly when a `Scan` of one of the format's rows fails, otherwise the format's rows grouped by record id |
| SqliteStore.SqliteDB.GetAllRecords | boocat/sqlite/sqlite.go:169-191 | "executing statement: …" when the query fails, "reading from rows: …" when a `Scan` fails, and no error otherwise: exactly one record per distinct record id of the format, with its fields plus "id" |
| SqliteStore.SqliteDB.SearchRecord | boocat/sqlite/sqlite.go:194-197 | always no records and no error |
| SqliteStore.SqliteDB.ReferenceValidate | boocat/sqlite/sqlite.go:200-208 | "" exactly when the record lookup's query and `Scan`s succeed, so an id no row holds is accepted; otherwise "record of format '…' and ID '…' not found" |
| MainFormats.ValidateYear | main.go:97-107 | "" exactly for a decimal integer that is not negative; "not a valid year number" otherwise |
| MainFormats.ValidateYearAcceptsPrinted | main.go:97-107 | every non-negative number, printed in decimal, is a valid year |
| MainFormats.ValidateYearAgreesWithTests | main.go:97-107 | it accepts exactly what the test package's validateYear accepts, with the same reason for an unparsable value and a different one for a negative year |
| MainFormats.RegExpValidator | main.go:82-94 | "" exactly for a value the expression matches; otherwise "does not match regular expression '<expr>'" |
| MainFormats.AuthorFormat | main.go:42-50 | author has name, birthdate and biography; name and biography searchable; biography unvalidated; birthdate validated as a year |
| MainFormats.BookFormat | main.go:51-60 | book has name, year, author and synopsis; name and synopsis searchable; synopsis unvalidated; author checked by the reference validator |
| MainFormats.AuthorRefusesNegativeBirthdate | main.go:42-50 | an author with a negative birthdate fails validation on birthdate with "not a valid year number" |
| MainFormats.BookRefusesAuthorFields | main.go:51-60 | a book record carrying an author's biography field fails with "not a field of format 'book'" |
| MainFormats.SearchableAreDeclared | main.go:42-60 | every searchable field of both formats is one of their declared fields |
| RootBoocat.GetRecord | boocat.go:156-165 | reads the record of the format by id and hands it on; a database error gives a nil record, and only then |
| RootBoocat.List | boocat.go:168-175 | reads all records of the format and hands them on; a database error gives a nil list, and only then |
| RootBoocat.Get | boocat.go:33-38 | one read of the record named by "id" when the parameters hold one, else one read of the whole list |
| RootBoocat.Update | boocat.go:40-42 | no data and no database call |
| RootBoocat.EditNew | boocat.go:45-60 | no database call; nothing for an unknown format, else the format's empty form submitted to "<url>/<format>/save" |
| RootBoocat.SaveNew | boocat.go:63-92 | valid values are added and the record under the returned id is shown; invalid values bring back the form with its failures and nothing is called |
| RootBoocat.SaveNewWritesIffValid | boocat.go:75-83 | a record is added exactly when the format is known and the submitted values pass validation |
| RootBoocat.EditExisting | boocat.go:97-122 | the form filled with the stored record and submitted to the record's own URL; the new-record form when the read fails |
| RootBoocat.SaveExisting | boocat.go:125-153 | valid values are written and the record named by the path is shown whatever the write returned; invalid values bring back the form and nothing is called |
| RootBoocat.TemplateRecords | boocat.go:179-190 | one entry per record, in order, with its fields and the link base URL plus its "id" |
| StrkiViews.FieldsWithValue | strki.go:111-125 | one entry per form field, in order, copying name, label and description, with the record's value or "" |
| StrkiViews.EditNew | strki.go:26-42 | the format's form with every value empty, submitted to "<url>/save" |
| StrkiViews.EditExisting | strki.go:44-66 | one read of the record; its values submitted to "<url>/save/<id>", or the empty new-record form when the read fails |
| StrkiViews.List | strki.go:91-109 | one read of all records; the list with the edit link, or no data exactly when the read fails |
| StrkiViews.SaveNew | strki.go:68-76 | the values are added, then the list is shown as List shows it |
| StrkiViews.SaveExisting | strki.go:78-89 | the record named by the path is updated with the values, then the list is shown as List shows it |
| StrkiViews.SaveIgnoresStoreError | strki.go:68-89 | the page after a save does not depend on whether the write failed |
| WebContent.TemplateKey | web/content.go:39 | a template's URL path followed by its file's extension is its file path |
| WebContent.StaticKey | web/content.go:49-70 | an ".htm" or ".html" file loses its extension; any other file keeps its whole path |
| WebContent.ExtOfDotted | web/content.go:39 | the extension of "<name>.<ext>" is ".<ext>" when ext holds no '.' or '/' |
| WebContent.TemplateKeyOfDotted | web/content.go:39 | the URL path of "<name>.<ext>" is "<name>" |
| WebContent.IndexKey | main.go:110 | the home page "/index.html" is served at "/index" |
| WebContent.ListAuthorKey | main.go:117 | the template "/list/author.tmpl" is served at "/list/author" |
| WebContent.Content.constructor | webserver/server.go:37-38 | no template and no static file to begin with |
| WebContent.Content.LoadTemplate | webserver/content.go:26-36 | the template is stored at its URL path, replacing what was there; nothing else changes |
| WebContent.Content.LoadStaticFile | webserver/content.go:40-63 | the file is stored at its URL path, replacing what was there; nothing else changes |
| WebContent.Content.GetTemplate | web/content.go:86-89 | the template at exactly that URL path, found exactly when one is stored there |
| WebContent.Content.GetFile | web/content.go:92-95 | the static file at exactly that URL path, found exactly when one is stored there |
| WebForms.FirstValues | webserver/server.go:191-204 | each key of the values with its first value, "" for a key given no value |
| WebForms.PreferFirst | web/server.go:166-173 | a merge holding the keys of both maps |
| WebForms.PreferFirstIsUnion | web/server.go:166-173 | the merge is map union with the first map winning |
| WebForms.PreferFirstValues | web/server.go:166-173 | a key of the first map keeps its value; a key only in the second brings its own; no other key appears |
| WebForms.PreferFirstByKeys | web/server.go:166-173 | any map with both maps' keys and the first map's values where it has them is their merge |
| WebForms.PreferFirstIdempotent | web/server.go:166-173 | merging the same second map twice changes nothing more; merging an empty map changes nothing |
| WebForms.SubmittedFormValues | webserver/server.go:191-204 | the query values overridden by the posted form values, key by key |
| WebForms.FormValues | server.go:93-102 | the first value of every posted form field and nothing else |
| WebForms.FormValuesIgnoreQuery | server.go:93-102 | with no query string the two versions of submittedFormValues agree |
| WebForms.Add | web/server.go:166-173 | the keys the first map lacks are added from the second; the first map's own values never change |
| WebForms.AddValidationFails | webserver/server.go:207-212 | each failed field's reason under its fail key; every other key keeps its value; no other key is added |
| WebserverHandlers.Handle | webserver/server.go:61-79 | 400 exactly for a method other than GET or POST, without stopping; then the template, else the static file, else 404 |
| WebserverHandlers.Dispatch | webserver/server.go:82-122 | GET reads the record named by "id", else searches on "_search", else lists; any other method updates with an "id" and adds without one |
| WebserverHandlers.OnlyGetReads | webserver/server.go:106-122 | a request writes exactly when its method is not GET |
| WebserverHandlers.OtherMethodsStillWrite | webserver/server.go:61-79 | a PUT or DELETE on a template path gets its 400 and still adds or updates a record |
| WebserverHandlers.GetRecordStatus | webserver/server.go:125-136 | 404 for an error that is format-not-found or record-not-found, 500 for any other, 200 with the record otherwise |
| WebserverHandlers.RecordsStatus | webserver/server.go:139-160 | 404 for an error that is format-not-found, 500 for any other, 200 with the records otherwise |
| WebserverHandlers.AddStatus | webserver/server.go:163-174 | 404 for format-not-found, 400 for record-has-id, 500 for any other error, 200 with no data on success |
| WebserverHandlers.WrappedErrorsAreInternal | webserver/server.go:125-160 | an error the service wrapped as unexpected is a 500 to every read, whatever it wraps |
| WebserverHandlers.AddValidationFailureIsInternal | webserver/server.go:163-174 | a failed validation of a new record is answered 500 |
| WebserverHandlers.AsValidationFailed | webserver/server.go:178 | the failures found are those of a validation error in the unwrap chain; a validation error gives its own; a sentinel gives none |
| WebserverHandlers.UpdateRecord | webserver/server.go:177-187 | always 200 with the values; a failed validation adds each reason under its fail key, anything else flags "_success" |
| WebserverHandlers.HandleWithTemplate | webserver/server.go:82-183 | the service is called with the template's format and the id, the search term or the whole values map, as GET with "id", GET with "_search", other GETs, and other methods with or without "id" ask; the dispatched operation's status replaces the template when it is not 200; otherwise the template is rendered with that operation's data; an update is always rendered, with the validation failures added under their fail keys, or the values flagged with "_success" for any other outcome |
| WebHandlers.GetRecordStatus | web/server.go:106-118 | 404 for an error equal to format-not-found or record-not-found, 500 for any other, 200 with the record otherwise |
| WebHandlers.ListStatus | web/server.go:120-130 | 404 for an error equal to format-not-found, 500 for any other, 200 with the records otherwise |
| WebHandlers.EqualityAgreesWithIs | web/server.go:106-130 | for an error that wraps nothing, the equality test gives the status errors.Is gives |
| WebHandlers.WrappedNotFoundIsInternal | web/server.go:106-130 | a wrapped not-found error is still not-found to errors.Is but is answered 500 |
| WebHandlers.HandleWithTemplate | web/server.go:67-145 | get calls the server with the template's format and "id", list with the template's format, and search, add and update call nothing; get and list run and their status replaces the template when it is not 200; search, add and update render the template with no data |
| WebHandlers.WritesAlwaysSucceed | web/server.go:99-145 | a POST always renders the template with no data and calls nothing on the server, whatever its replies |
| RootServer.Stem | server.go:59-62 | the request's name followed by the path's extension is the last element of the path |
| RootServer.RequestHandler | server.go:58-90 | with a template, the template exactly when its name is a registered format and 500 otherwise; else the static file; 404 exactly when neither exists |
| RootServer.NoExtension | server.go:60-62 | a last element without '.' has no extension |
| RootServer.LastElement | server.go:59-60 | the last element of "<dir>/<name>" is name |
| RootServer.StemOfPlainName | server.go:59-62 | a URL such as "/edit/author" dispatches on "author" |
| RootServer.TemplateShadowsFile | server.go:65-88 | a path with a template never serves a static file and never gets 404 |
| GoStd.TrimSuffix | web/content.go:39 | the suffix is removed exactly when the string ends with it; otherwise the string is unchanged |
| GoStd.TrimPrefix | web/content.go:49 | the prefix is removed exactly when the string starts with it; otherwise the string is unchanged |
| GoStd.ToLowerIdempotent | boocat/boocat_test.go:120-128 | lower-casing twice is lower-casing once |
| GoStd.Atoi | boocat/boocat_test.go:382 | a parsed number fits in 64 bits, and the empty string does not parse |
| GoStd.ItoaDigits | boocat/boocat_test.go:40 | the decimal form of a number is a non-empty run of digits whose value is that number |
| GoStd.AtoiItoa | boocat/boocat_test.go:40-43 | an id printed by Itoa parses back to the same number |
| GoStd.ItoaInjective | boocat/boocat_test.go:40-43 | different slice positions get different ids |
| GoStd.Ext | server.go:60 | the extension is a suffix of the path, and when not empty it starts with '.' and holds no '/' |
| GoStd.TrimTrailingSlashes | server.go:61 | a prefix of the path ending in anything but '/' |
| GoStd.AfterLastSlash | server.go:61 | a suffix of the path with no '/' in it |
| GoStd.ExtIsSuffixOfBase | server.go:60-62 | the extension ends the last element, so cutting it off is well defined |
| GoStd.ExtWithinLastElement | server.go:60-62 | a non-empty extension lies within the last element of the path |
| GoStd.FirstValue | webserver/server.go:196 | the first value given for a key, or "" when there is none |
| Results.FailKeyInjective | webserver/server.go:209 | two different fields never share a fail key |
| Results.SubsetOfSameSize | boocat/formats.go:44-53 | a subset as large as its superset is the whole superset, which makes the size-and-inclusion test a set equality |
| Results.SubsetSize | boocat/formats.go:44-53 | a subset is never larger than its superset |

## Left out

- Files, HTTP, logs:
  - Reading template and static files, parsing and executing templates, and writing HTTP responses are not modelled. A template is kept as the file it came from.
  - `log.Fatal` on a missing file is not modelled.
  - A template `Write` error after a status was chosen (a late 500) is not modelled.
- Go maps, aliasing and concurrency:
  - The Go code fills maps in place, for example `addValidationFails` and the `delete(record, "id")` of the SQLite `UpdateRecord`. Here the new map is returned, or exposed as an out-parameter. Aliasing between the caller's map and the stored record is not modelled.
  - Go's map iteration order is left nondeterministic. Results that depend on it are specified up to that order.
  - Contexts, cancellation, goroutines, server start and shutdown are not modelled. Neither is panicking inside `inTransaction`, where Go rolls back and panics again.
- Drivers:
  - The MongoDB, SQLite and `database/sql` drivers are parameters. Their internal errors are opaque values.
  - The SQLite query, `Scan`, `ExecContext`, `RowsAffected`, commit and rollback failures are parameters: a failing `Scan` is named by the position of the row it reads.
  - `BeginTx` failing is not modelled: the Go code ignores that error and goes on with a nil transaction, which panics.
  - `ObjectIDFromHex` rejecting an id is not modelled: the Go code discards that error, and the driver call carries the id string.
  - `ReplaceOne` failing with a nil result is not modelled: Go then panics on `result.MatchedCount`, while the model's reply always carries a matched count.
  - The SQLite multi-row INSERT is checked only through the number of rows it reports.
  - MongoIndexes.ReconcileFormat and MongoIndexes.InitializeCollections model the index reconciliation when `DropOne` and `CreateOne` succeed. A failure of either ends the program with `log.Error.Fatal` (boocat/mongodb/mongodb.go:66-80), which is not modelled.
  - The BSON decoding into a map that the MongoDB adapters reuse between documents is modelled as a fresh map per document.
- Text and numbers:
  - Regular-expression compiling and matching is a parameter.
  - `strings.ToLower` is modelled for ASCII letters only.
  - `fmt`'s `%q` quoting and the text of `strconv` errors are not reproduced. An error message is kept where a contract depends on it.
  - Floating point is not used by the code.
- Wiring and globals:
  - The package globals, such as the HTTP URL, the database handle and the format registry of server/formats and formats, become parameters or fields.
  - `main.go`'s `loadWebFiles` and `cmd/main.go` are not modelled as a program. Two of the keys they load are stated as lemmas (`WebContent.IndexKey`, `WebContent.ListAuthorKey`).
- Symbols the older files use that their own version does not define:
  - webfiles.GetTemplate and webfiles.GetFile, used by server.go, are not part of this model. The templates and files are parameters.
  - database.GetForm, used by strki.go, is not part of this model. The form is a parameter and its lookup error is not modelled.
  - validators.NewNilValidator, used by formats/formats.go:40 and 51, is not part of this model. The validator it returns is a parameter (`nilValidator`) of Formats.AuthorFormat and Formats.BookFormat.
  - formats.Field and ValidatedFieldsWithValue, used by boocat.go, are not part of this model. A format's view (its label, its fields and its validation) is a parameter.
  - `bcerrors.FormatNotFoundError{}` and `bcerrors.RecordNotFoundError{}`, which web/server.go:111, 113 and 125 compare errors with, are not defined by server/errors/errors.go. They are read as its sentinels `ErrFormatNotFound` and `ErrRecordNotFound` (server/errors/errors.go:8-9).
- Code present in several copies, modelled once:
  - `Validate` and `SearchableAre` of server/formats/formats.go are the code of boocat/formats.go.
  - `IncompleteRecord` and `Merge` of formats/formats.go are those of server/formats/formats.go.
  - `matchesSearch` of tests/mockdb.go is that of boocat/boocat_test.go.
  - boocat/mongodb/database.go is an earlier copy of boocat/mongodb/mongodb.go.
  - The index helpers of server/database/database.go are those of MongoIndexes.
  - `documentToRecord(s)` of boocat/sqlite/sqlite.go is that of the MongoDB adapters.
- Not part of the model: templates/templates.go, validators/validators.go, formats/bcformats.go, log/log.go and the HTTP-level tests. They are either wiring or tests of it.
- BoocatMock.MockDB.AddRecord requires fewer records than Go's largest `int` in the format's slice, because the new id is the slice length printed with `strconv.Itoa` and is read back with `strconv.Atoi`.
- ServerService.Server.GetRecord, ServerService.Server.ListRecords, ServerService.Server.SearchRecords, ServerService.Server.AddRecord, ServerService.Server.UpdateRecord and ServerService.Server.FillFromDatabase require a database (`db.Some?`). In Go, calling them before `Initialize` dereferences a nil database and panics, which is not modelled.
- SqliteStore.SqliteDB.AddRecord requires a failing `ExecContext` reply for a record with no field: the INSERT it builds (boocat/sqlite/sqlite.go:23, 91-98) then has no VALUES row, which SQLite rejects. The error text SQLite gives is not reproduced.
- The boocat and server record services take the database's reply as a parameter. Their contracts state what they do with any reply, not which replies a real database could give.

## Findings

| source | as written | input that shows it | evidently intended | confidence | as-written member | corrected member |
|---|---|---|---|---|---|---|
| boocat/sqlite/sqlite.go:239-241 | `inTransaction` always calls `tx.Rollback()` in its deferred function, including after the function has committed. Rollback after Commit returns `sql.ErrTxDone`, so `ferr` is set to `fmt.Errorf("rolling transaction back: %w", err)` with the nil `BeginTx` error. | An AddRecord or UpdateRecord whose insert or updates and commit all succeed reports the error "rolling transaction back: %!w(<nil>)". | Report a rollback failure only when the transaction was not committed, wrapping the rollback's own error. A committed transaction returns the function's result. | not executed | SqliteStore.InTransactionAsWritten, SqliteStore.CommittedTransactionReportsError | SqliteStore.InTransaction, SqliteStore.InTransactionSucceedsIffFunctionDoes |
| boocat/sqlite/sqlite.go:80-116 | `AddRecord` declares the named result `newID` and never assigns it. The fresh id is a variable local to the transaction's function, and `return newID, err` returns the zero value. | Any record without an id that AddRecord stores: the rows go under a fresh 20-character id, and the caller gets "". | Return the id the rows were stored under. | not executed | SqliteStore.SqliteDB.AddRecord (`newID == ""`) | SqliteStore.SqliteDB.AddRecord (`storedID`: a fresh random id, different from `newID`, that the new rows hold) |
