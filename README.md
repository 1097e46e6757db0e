# flexytr-api business core in Dafny

This project models the business core of the flexytr-api back end, an
Express + Sequelize service over MSSQL. The core is five route files and the
records they store:

- **tasks**: creation, the status workflow (only the assigned user may change
  the status, and only along the transition table), field edits by the
  creator, soft delete, and the history log each change appends;
- **sales**: the single sale and the transactional bulk sale (stock check,
  stock decrement, all or nothing), the summary aggregate, and the report
  file name;
- **reports**: the role hierarchy, the role-filtered listing, owner-only
  update, and the delete and status-change authorisation;
- **inventory**: the required-field check with localised names, defaults,
  update, stock setting and delete;
- **calls**: creator-only update and delete, and the listing;
- the records User, Task, TaskHistory, Sale, Inventory, Report and Call, with their
  NOT NULL columns, enums, defaults and validity sets.

The database is the class `Db.Store`. It has one field per table: a map from
primary key to row, and sequences for task history and the sales. Its
`Valid()` invariant says:

- every row is stored under its own id;
- identity counters lie above every key;
- e-mail addresses are unique;
- every history entry references a stored task, and its snapshots are of
  that task.

Every handler is a method that `modifies` the store. It keeps `Valid()` and
states its whole new state as `db.Snapshot() == old(db.Snapshot()).(…)`. That
new state is given by a function (`…Spec`, `SingleSale`, `BulkRun`). The source's
promises are proved about that function, as its `ensures` or as lemmas. The
bulk sale's loop is the `while` loop of `Sales.RunBatch`. Its invariant ties
it to the recursive `Sales.BulkRun`.

JavaScript and database semantics are written out:

- Request values are `Common.JsValue` (undefined, null, number, string).
- `Common.ParseInt` is JavaScript's `parseInt`.
- `Common.ToInteger` is how the database reads a value into an INTEGER
  column: nothing for undefined or null, a value for a signed digit string,
  0 for an empty, blank or bare-sign string, and an error otherwise.
- `Db.FindByPk` is `findByPk`: null finds nothing, and a key the database
  cannot convert throws.
- Task's default scope hides soft-deleted tasks, even from `findByPk`.
- `update()` skips undefined keys.
- `save()` of an unchanged row keeps its `updatedAt`.
- Exceptions caught by a handler's `catch` are `Crashed`; rows refused by
  validation or a constraint are `Rejected`.

Money is integer cents.

The time of a request (`new Date()`) is the `now` parameter of each handler
that stores it.

Upper-casing for the report listing (`Text.ToUpper`) follows `toUpperCase`
on ASCII, Latin-1 and Latin Extended-A: `ß` becomes `SS`, `ŉ` becomes `ʼN`,
the long `ſ` becomes `S` and the dotless `ı` becomes `I`. So three stored
roles normalise to a key of the hierarchy: `Admin`, `Yazılım` and
`Kullanıcı`. Of these, only `Admin` becomes `ADMIN`
(`Reports.NormalizedStoredRole`). The keys of the hierarchy are left as they
are (`Reports.HierarchyKeysAreUpper`).

## Model

| member | source | states |
|---|---|---|
| Common.FromColumn | routes/tasks.js:88 | An integer column read back is a number or null, and parseInt of it gives back the stored value |
| Common.ToInteger | models/Task.js:25-28 | Reading a value into an INTEGER column gives no value exactly for undefined and null, and 0 for an empty, blank or bare-sign string, in which parseInt finds no number; any other converted value is the number parseInt reads |
| Db.FindByPk | routes/sales.js:35-46 | findByPk throws exactly when the key cannot be converted. It finds a row exactly when the converted key is stored, and returns that row |
| Db.WriteTaskWellFormed | routes/tasks.js:127 | Overwriting a stored task with a row of its id keeps every store invariant |
| Db.AddTaskWellFormed | routes/tasks.js:34 | A new task under the next id, with the counter moved past it, keeps every store invariant |
| Db.LogEntryWellFormed | models/TaskHistory.js:10-17 | An entry that references a stored task, with snapshots of that task, keeps every store invariant, the history's foreign key included |
| Listing.Query | routes/tasks.js:8-10 | findAll with `where` and `order DESC`: the result is sorted descending by the key and holds each stored row that passes the filter as often as it is stored, and nothing else |
| Listing.RowsBelowCount | routes/tasks.js:8-10 | Reading the table by keys yields each row as often as it is stored |
| Listing.KeyCountOfKeyedRow | routes/tasks.js:8-10 | In a table that stores every row under its own id, a row is stored once if it is there and not at all otherwise |
| Text.ConvertTurkishChars | routes/reports.js:53-63 | Keeps the length; each character is transliterated: the twelve Turkish letters become their ASCII letter, others stay |
| Text.ConvertTurkishCharsIdempotent | routes/reports.js:53-63 | Converting twice is converting once |
| Text.ConvertTurkishCharsConcat | routes/reports.js:62 | Conversion distributes over concatenation |
| Text.StripTurkishLetters | routes/sales.js:308 | No Turkish letter remains; a character is in the result iff it was in the input and is not a Turkish letter; never longer |
| Text.StripTurkishLettersConcat | routes/sales.js:308 | Stripping distributes over concatenation, so the kept characters keep their order |
| Text.StripTurkishLettersKeepsAscii | routes/sales.js:308 | A string with no Turkish letter is left as it is |
| Text.StripAfterConvert | routes/sales.js:308 | After conversion there is nothing left to strip |
| Text.UpperOf | routes/reports.js:22-24 | A character is mapped to itself iff it is not a small letter of the modelled range; the result holds no small letter, is two characters long only for ß and ŉ, and a–z become A–Z |
| Text.ToUpper | routes/reports.js:22-24 | No small letter of the modelled range is left; the result is at least as long as the input and at most twice; a string with no small letter is unchanged |
| Text.ToUpperIdempotent | routes/reports.js:22-24 | Upper-casing twice is upper-casing once |
| Text.ToUpperConcat | routes/reports.js:22-24 | Upper-casing distributes over concatenation |
| Text.ToUpperPointwise | routes/reports.js:22-24 | Without ß and ŉ, upper-casing keeps the length and maps each character on its own |
| Text.CapitalsAreUpper | routes/reports.js:10-19 | A string of capitals, digits, underscores and spaces is unchanged |
| UserModel.ParseRole | models/User.js:31-43 | Recognises exactly the eight stored role spellings |
| TaskModel.ParseTaskStatus | models/Task.js:33-36 | Recognises exactly the four status codes |
| TaskModel.ParsePriority | models/Task.js:17-20 | Recognises exactly the three priorities |
| TaskModel.NewTask | models/Task.js:9-44 | A task is created iff title, description, assignee and dueDate are present and priority and status are in their enums; defaults are Orta, backlog and not deleted |
| SaleModel.ParseSaleStatus | models/Sale.js:55-62 | Recognises exactly Beklemede, Onaylandı, İptal Edildi |
| SaleModel.ParsePaymentMethod | models/Sale.js:63-70 | Recognises exactly the five payment methods |
| SaleModel.BuildSale | models/Sale.js:10-70 | A sale row is accepted iff every NOT NULL column has a value, status and paymentMethod are in their sets and the amounts fit DECIMAL(10,2). Defaults: totalAmount 0, Beklemede, Nakit |
| InventoryModel.ParseItemStatus | models/Inventory.js:35-38 | Recognises exactly Aktif, Pasif, Stokta Yok |
| InventoryModel.NewItem | models/Inventory.js:9-42 | An item is created iff name, category, unit and an integer lastUpdatedBy are present, the status is in its enum and the price fits. Defaults: quantity 0, price 0, Aktif |
| InventoryModel.ApplyItemFields | routes/inventory.js:71 | Present fields replace their columns; refused exactly for a null or non-integer lastUpdatedBy, an unknown status or a price too wide |
| InventoryModel.SaveItem | models/Inventory.js:45 | A row with no changed column keeps its updatedAt; a changed value, or a raw value that differs from the stored one, gives now; every other column is as given |
| ReportModel.ParseReportStatus | models/Report.js:22-25 | Recognises exactly the five report statuses |
| ReportModel.NewReport | models/Report.js:10-35 | A report is created iff title and content are present; it starts as taslak and records the given role, name, author and time |
| Tasks.StatusText | routes/tasks.js:75-83 | A non-status string is shown as it is; a status gets a label that differs from it and is not itself a status code |
| Tasks.CanTransition | routes/tasks.js:93-101 | Allowed exactly for the five pairs backlog→inProgress, inProgress→review, review→done, review→inProgress, done→review. A target is always a status, never the source, never backlog |
| Tasks.IntColumnWrite | models/Task.js:25-40 | Writing a nullable INTEGER column: undefined keeps it, null clears it, an empty, blank or bare-sign string stores 0, and any other value is stored as parseInt reads it |
| Tasks.NameOf | routes/tasks.js:40 | 'Sistem' exactly when there is no such user, otherwise `ad soyad` |
| Tasks.ActorName | routes/tasks.js:110-115 | Looking up the acting user throws exactly for an unconvertible id; otherwise it gives that user's name or 'Sistem' |
| Tasks.ApplyEdit | routes/tasks.js:127 | task.update(body) writes every present column. It is refused exactly for an out-of-enum priority or status or an unconvertible id, and keeps id and createdAt |
| Tasks.UpdateTaskSpec | routes/tasks.js:68-161 | See the notes below the table |
| Tasks.DeleteTaskSpec | routes/tasks.js:164-192 | Only when creatorId === userId, with no conversion: it is flagged deleted and a 'Görev silindi' entry keeps the old snapshot. Otherwise Forbidden and nothing changes |
| Tasks.FindTask | routes/tasks.js:70-73 | Finds a task exactly when its id is stored and it is not soft-deleted; throws exactly for an unconvertible id |
| Tasks.DraftOf | routes/tasks.js:34 | The creation body reaches Task.create unchanged, unless an id cannot be converted |
| Tasks.CreateTaskSpec | routes/tasks.js:32-65 | A task is created iff its draft is valid. It gets the next id, and the 'Yeni görev oluşturuldu' entry names the creator or 'Sistem' and carries the new task |
| Tasks.ListTasks | routes/tasks.js:8-10 | Each stored task that is not deleted exactly once, and nothing else, newest first |
| Tasks.EntriesFor | routes/tasks.js:197-200 | Exactly the history entries whose taskId is the given id |
| Tasks.EntriesForAppend | routes/tasks.js:197-200 | A newly appended entry with that taskId comes first; others do not change the list |
| Tasks.TaskHistoryOf | routes/tasks.js:195-214 | The task's entries; a crash exactly for an unconvertible id |
| Tasks.CreateTask | routes/tasks.js:32-65 | The store has the new task under the next id and one more history entry, or is unchanged on refusal; Valid() is kept |
| Tasks.UpdateTask | routes/tasks.js:68-161 | Unknown or deleted id: NotFound and no change. Otherwise the store is changed exactly as UpdateTaskSpec says; Valid() is kept |
| Tasks.DeleteTask | routes/tasks.js:164-192 | As DeleteTaskSpec; no key leaves the table (soft delete); Valid() is kept |
| Sales.Decrement | routes/sales.js:71-73 | Quantity lowered by exactly the amount sold; nothing else but the save time changes |
| Sales.SingleSale | routes/sales.js:28-82 | User, then item, missing or unconvertible, in that order; 'Yetersiz stok' when stock < quantity. With both found and stock enough, it succeeds iff companyId and companyName are given and the amounts fit, else Rejected. On success: totalPrice = quantity × unitPrice, the stock is decremented and stays non-negative |
| Sales.SingleSaleAsWritten | routes/sales.js:58-68 | Without companyId every request fails; one that passes every check is Rejected |
| Sales.CreateSale | routes/sales.js:28-82 | All or nothing: on success one sale appended and the item decremented, otherwise the store is unchanged; Valid() is kept |
| Sales.BulkStep | routes/sales.js:150-198 | One item: NotFound names the requested id; InsufficientStock names the item, its stock and the request. A found item with enough stock succeeds iff parseInt of the companyId is a number, the amounts fit and the payment method is known, else Rejected; success creates the row and decrements the stock |
| Sales.BulkSale | routes/sales.js:127-213 | User, then company, then the items in order; the first failing item ends the batch with its error |
| Sales.ContextOf | routes/sales.js:171-183 | Every row of the batch gets `parseInt(companyId)` (NaN for a blank or bare-sign id), the user's `ad soyad` and the company's name |
| Sales.NaNCompanyIsRejected | routes/sales.js:171-203 | A companyId that parseInt reads as NaN fails the batch with 400 once its first item passes the stock check, even though the company lookup found a row |
| Sales.BulkRunSales | routes/sales.js:171-184 | A successful batch creates one row per item, in order, each with the item's values, totals, Beklemede, the company name and the payment method |
| Sales.BulkRunStock | routes/sales.js:194-196 | After a successful batch the items are the same; each one's stock has dropped by the total quantity asked of it, and no column but the quantity and updatedAt changed |
| Sales.BulkRunNeverNegative | routes/sales.js:159-164 | Starting from non-negative stock, a successful batch leaves no stock negative |
| Sales.BulkRunKeyed | routes/sales.js:194-196 | A batch keeps every item under its own id |
| Sales.BulkRunFirst | routes/sales.js:150-204 | The first item's error is the batch's error; its row goes in front of the rest's |
| Sales.BulkRunSucceeds | routes/sales.js:150-204 | A batch whose items are all found, fit their columns and are covered by their stock, with a numeric companyId and a known payment method, succeeds |
| Sales.BulkRunMissingAborts | routes/sales.js:152-156 | A batch that names a missing or unreadable item fails as a whole |
| Sales.RunBatch | routes/sales.js:150-204 | The loop computes exactly BulkRun |
| Sales.CreateBulkSale | routes/sales.js:127-213 | All or nothing: on success the batch's rows are appended and the stock replaced by the batch's result, otherwise the store is unchanged; Valid() is kept |
| Sales.Summary | routes/sales.js:112-118 | The count of sales and the sums of totalPrice and quantity; the sums are NULL exactly when there are no sales |
| Sales.TotalsAppend | routes/sales.js:114-116 | The sums add up over concatenation |
| Sales.SummaryAfterAppend | routes/sales.js:112-118 | After appending sales the summary grows by exactly their count and sums |
| Sales.ReportFileName | routes/sales.js:308 | The file name holds no Turkish letter and is at most 17 characters longer than the company name |
| Sales.ReportFileNameKeepsPlainNames | routes/sales.js:308 | A name without Turkish letters appears unchanged in the file name |
| Reports.RoleHierarchy | routes/reports.js:10-19 | Each role of the chain lists the next plus what that one lists; the four leaf roles list nothing |
| Reports.HierarchyStrict | routes/reports.js:10-19 | No role lists itself, and a listed role is a key with a shorter list, so no role lists one above it |
| Reports.HierarchyTransitive | routes/reports.js:10-19 | Whoever a listed role lists is listed too |
| Reports.NormalizedStoredRole | routes/reports.js:75-80 | Upper-cased, a stored role is a key iff it is Admin, Yazılım or Kullanıcı, and is ADMIN iff it is Admin |
| Reports.HierarchyKeysAreUpper | routes/reports.js:10-24 | Upper-casing a key of the hierarchy gives the key itself |
| Reports.ViewableRoles | routes/reports.js:80 | The role itself and, if it is a key, exactly the roles it lists |
| Reports.ListReports | routes/reports.js:66-104 | 400 iff userId or userRole is falsy. Otherwise each visible report exactly once and nothing else, latest reportDate first: all for ADMIN, else those whose userRole is viewable |
| Reports.AdminSeesEverything | routes/reports.js:77-78 | An Admin's listing contains every report |
| Reports.VisibleRoles | routes/reports.js:78-88 | A non-admin sees a report iff its userRole is their own normalised role or one listed under it |
| Reports.StatusLabel | routes/reports.js:44-50 | A non-status is shown as it is; a status's label differs only in its capital first letter and is not a status code |
| Reports.CreateReportSpec | routes/reports.js:107-131 | The author must exist. The report exists iff title and content are given, starts as taslak and records the author's stored role and `ad soyad` |
| Reports.ApplyReportBody | routes/reports.js:146 | Present fields replace their columns, reportDate included; refused exactly for an unknown status or a null or unconvertible userId |
| Reports.UpdateReportSpec | routes/reports.js:134-152 | Forbidden iff parseInt(body.userId) is not the owner. Otherwise the body is applied (a present reportDate moves the report in the listing), and an update never changes the report's id or owner |
| Reports.DeleteGateAsWritten | routes/reports.js:163-166 | As written, a requester passes iff they are the owner; a non-owner who does not exist throws |
| Reports.DeleteGate | routes/reports.js:163-166 | As intended, a requester passes iff they are the owner or an Admin; a non-owner who does not exist throws |
| Reports.DeleteReportSpec | routes/reports.js:155-174 | The requester lookup comes first, then the delete gate decides: 204, 403 or a crash |
| Reports.DeleteAllowedForAdminAndOwner | routes/reports.js:162-164 | An Admin or the owner can always delete |
| Reports.RoleKey | routes/reports.js:10-19 | Each stored role names a key of the hierarchy; only Admin names ADMIN |
| Reports.HierarchyIsRankOrder | routes/reports.js:10-19 | Role b is listed under role a iff a ranks strictly above b |
| Reports.StoredRoleIsNoKey | routes/reports.js:195-196 | No stored role spelling is 'ADMIN' or a key of the hierarchy |
| Reports.StatusGateAsWritten | routes/reports.js:194-196 | As written, only 'ADMIN' or a hierarchy key can pass, and a missing owner throws |
| Reports.StatusGateAsWrittenRefusesAll | routes/reports.js:194-200 | As written, every stored requester is refused, Admin included |
| Reports.StatusGate | routes/reports.js:194-200 | As intended: passes iff the requester is an Admin or ranks strictly above the owner; throws iff a non-admin's report has no owner row |
| Reports.OwnerOf | routes/reports.js:194 | The owner row, present iff stored |
| Reports.StatusChangeSpec | routes/reports.js:177-208 | User NotFound; the gate's 403 or crash. A requester the gate lets through gets: no newStatus keeps the report, an unknown status is Rejected, and a status of the enum is set. Only the status changes, to the requested one |
| Reports.AdminSetsAnyStatus | routes/reports.js:202 | There is no transition table: an Admin sets any status from any |
| Reports.SuperiorSetsAnyStatus | routes/reports.js:194-202 | A requester ranked above the report's owner sets any status |
| Reports.OwnerCannotChangeOwnStatus | routes/reports.js:195-200 | A non-admin author cannot change the status of their own report |
| Reports.CreateReport | routes/reports.js:107-131 | On success the report is stored under the next id, otherwise the store is unchanged; Valid() is kept |
| Reports.UpdateReport | routes/reports.js:134-152 | Unknown id: NotFound and no change. Otherwise exactly UpdateReportSpec's row is written back; Valid() is kept |
| Reports.DeleteReport | routes/reports.js:155-174 | Unknown id: NotFound. An allowed delete removes exactly that report and nothing else changes; Valid() is kept |
| Reports.ChangeReportStatus | routes/reports.js:177-208 | Unknown id: NotFound. Otherwise exactly StatusChangeSpec's row is written back; Valid() is kept |
| Inventory.MissingFieldNames | routes/inventory.js:22-37 | Exactly the localised names of the falsy required fields, each once, in the order checked |
| Inventory.WithDefaults | routes/inventory.js:41-46 | Falsy quantity and price become 0 and a falsy status becomes Aktif; every other field is kept |
| Inventory.CreateItemSpec | routes/inventory.js:19-61 | MissingFields iff a required field is falsy, naming exactly those. Otherwise the item gets the next id and the body's values, quantity and price 0 and status Aktif when falsy |
| Inventory.CreateRejectedOnlyWhenInvalid | routes/inventory.js:48-60 | With every required field present, creation fails iff the editor id is not an integer, the status is unknown or the price too wide |
| Inventory.UpdateItemSpec | routes/inventory.js:64-77 | Present fields replace their columns; updatedAt moves iff a column changed or lastUpdatedBy was sent as anything but the stored number; id and createdAt are kept |
| Inventory.UpdateTwiceIsUpdateOnce | routes/inventory.js:71 | Sending the same update again, with no editor id as a string, changes nothing, not even updatedAt |
| Inventory.StringEditorAlwaysSaves | routes/inventory.js:71 | An accepted update that sends the editor id as a string moves updatedAt to now, each time it is sent |
| Inventory.SetStockSpec | routes/inventory.js:96-111 | The quantity becomes exactly the given value, with no bound check; nothing else but updatedAt changes; no quantity touches nothing |
| Inventory.ListInventory | routes/inventory.js:8-10 | Each stored item exactly once and nothing else, most recently updated first |
| Inventory.CreateItem | routes/inventory.js:19-61 | On success the item is stored under the next id, otherwise the store is unchanged; Valid() is kept |
| Inventory.UpdateItem | routes/inventory.js:64-77 | Unknown id: NotFound and no change. Otherwise exactly UpdateItemSpec's row is written back; Valid() is kept |
| Inventory.SetStock | routes/inventory.js:96-111 | Unknown id: NotFound and no change. Otherwise exactly SetStockSpec's row is written back; Valid() is kept |
| Inventory.DeleteItem | routes/inventory.js:80-93 | Unknown id: NotFound and no change. Otherwise exactly that item is removed; Valid() is kept |
| Calls.IsCreator | routes/calls.js:42 | The requester is the creator iff parseInt of their id is the stored userId |
| CallModel.ParseCallPriority | models/Call.js:37-40 | Recognises exactly Yüksek, Normal, Düşük |
| CallModel.ParseCallStatus | models/Call.js:41-44 | Recognises exactly Beklemede, İşlemde, Tamamlandı |
| CallModel.RequiredIntWrite | models/Call.js:45-49 | Writing a NOT NULL integer column: undefined keeps it; refused exactly for null or a value the database cannot read as an integer |
| CallModel.ApplyCallFields | models/Call.js:1-58 | Present fields replace their columns; refused exactly for a null or non-integer userId or duration, or an unknown priority or status; id and createdAt are kept |
| CallModel.ApplyCallFieldsTwice | models/Call.js:1-58 | Applying the same fields to the row they produced changes nothing |
| Calls.UpdateCallSpec | routes/calls.js:42-50 | Forbidden unless the requester is the creator. The creator's body is then applied, refused (400) exactly when the database cannot store it, and the call keeps its id, creation time and creator |
| Calls.BadDurationIsRejected | routes/calls.js:46-50 | A null or non-integer duration makes the creator's update fail |
| Calls.UpdateCallTwiceIsUpdateOnce | routes/calls.js:46 | Sending the same update again changes nothing more |
| Calls.DeleteCallSpec | routes/calls.js:62-69 | Allowed iff parseInt of the query userId is the creator, else Forbidden |
| Calls.ListCalls | routes/calls.js:8-9 | Each stored call exactly once and nothing else, newest first |
| Calls.UpdateCall | routes/calls.js:33-52 | Unknown id: NotFound and no change. Otherwise exactly UpdateCallSpec's row is written back; Valid() is kept |
| Calls.DeleteCall | routes/calls.js:55-74 | Unknown id: NotFound and no change. An allowed delete removes exactly that call; Valid() is kept |

`Tasks.UpdateTaskSpec` states five things:

- **Status branch.** A status change is refused (Forbidden) unless parseInt(userId) is the assignee. It is refused with both labels outside the transition table. Otherwise only the status changes, and the entry's two snapshots both hold the new status.
- **Edit branch.** A field edit is refused unless the requester is the creator; the whole body is then applied and logged with its before and after snapshots.
- **Who is logged.** In both branches the entry's `user` is the requester's `ad soyad`, or 'Sistem' when no such user is stored (`Tasks.ActorName`).
- **Neither branch.** When the body is neither kind of change, nothing happens.
- **Error paths.** A refusal writes nothing.

## Findings

| source | as written | input that shows it | evidently intended | confidence | as-written member | corrected member |
|---|---|---|---|---|---|---|
| routes/sales.js:58-68 | `Sale.create` gets no `companyId`, a NOT NULL column (models/Sale.js:18-21) | any single sale whose user and item exist and whose stock suffices: validation refuses it and the transaction rolls back | the sale records the company the body names, read with `parseInt` as the bulk sale reads it (routes/sales.js:174) | high (not executed) | Sales.SingleSaleAsWritten | Sales.SingleSale |
| routes/reports.js:164 | the Admin override tests `user.rol !== 'ADMIN'`, but a stored role is spelt `'Admin'` (models/User.js:33) | an Admin deleting a report of another user gets 403 | the owner or an Admin may delete | high (not executed) | Reports.DeleteGateAsWritten | Reports.DeleteGate |
| routes/reports.js:195-196 | the stored `rol` is compared with `'ADMIN'` and used as a key of `roleHierarchy`, whose keys are upper-case with underscores | an Admin, or a Proje Yöneticisi changing the status of a Yazılım user's report, gets 403 | an Admin, or a requester whose hierarchy entry lists the owner's role, may change the status | high (not executed) | Reports.StatusGateAsWritten | Reports.StatusGate |

These handlers use the corrected members:

- `Sales.CreateSale` passes `ParseInt(body.companyId)` to `Sales.SingleSale`.
- `Reports.DeleteReport` uses `Reports.DeleteGate`.
- `Reports.ChangeReportStatus` uses `Reports.StatusGate`.

## Left out

- PDF rendering of the sales and report downloads is not modelled (pdfkit, streams, fonts). Only the sales report's file name is.
- The date windows of the sales report are not modelled. They depend on the JavaScript `Date` and the wall clock.
- The report download route is not modelled beyond its status label (`Reports.StatusLabel`).
- Time is the `now` parameter of each handler, not a clock.
- Money is integer cents; JavaScript floating-point arithmetic on prices is not modelled.
- Sequelize transactions are a working copy that a handler writes back only on success. Isolation, locking and concurrent requests are not modelled.
- Sales.BulkSale: each item reads the batch's own earlier decrements. Duplicate item ids in one batch therefore act in turn, and the bulk reads are taken as inside the transaction.
- Reports.ListReports: compares roles exactly as strings, so the database collation's case and accent rules are not modelled.
- Association includes (`User` and `Inventory` attributes in responses) are not modelled. Neither are `assignedUserId` and the other foreign keys and their constraints.
- Request fields that are strings are absent or present; a `null` text field is not modelled. Neither is a `null` report status or stock quantity.
- Reports.ApplyReportBody: a body's `reportDate` is taken as an already parsed date; a `null` or unparsable date string is not modelled.
- Text.ToUpper: covers ASCII, Latin-1 and Latin Extended-A only. The case mappings of other scripts (Greek, Cyrillic, Armenian, the Latin extensions beyond Extended-A and the rest) and the final-sigma context rule are not modelled; those characters are kept as they are.
- Sales.SingleSale: `quantity` and `unitPrice` are integers the body always carries. A body without them, which the source lets through (`stock < undefined` is false, the total is NaN and Sale's quantity default of 1 applies), is not modelled.
- Sales.BulkSale: each item's `quantity` and `unitPrice` are integers the body always carries; an item without them is not modelled, as for the single sale.
- Common.ParseInt: does not model the `0x` hexadecimal prefix or radix handling.
- Common.ToInteger: does not accept the surrounding spaces MSSQL tolerates in an integer string, and does not model the 32-bit range of INTEGER.
- Inventory.SetStockSpec: the quantity is an integer of any size. INTEGER's 32-bit range, which would refuse a larger stock, is not modelled, and neither is a quantity sent as a string or a fraction. The same holds for the inventory create and update bodies, whose quantity is an integer too.
- Tasks.NewTask and Tasks.ApplyEdit: do not validate `dueDate` as a date; it is free text.
- Call creation (`POST /calls`) is not modelled: it passes the body straight to `Call.create`; no rule depends on it.
- The sales listing and detail routes (`GET /sales`, `GET /sales/:id`) are not modelled: they are plain reads.
- The users and companies routes are not part of this model. Neither are login, JWT signing and password hashing.
- Object keys such as `constructor`, which JavaScript's status maps would find on the prototype, are not modelled.
- The crash when a history entry cannot be written after a task update is modelled. The updated row is still written; there is no transaction around these routes.
