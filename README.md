# OpticSuit core, modelled in Dafny

OpticSuit is an optical-shop system: an ASP.NET backend over PostgreSQL and a
React frontend. This project models the parts of it that decide something:

- **Patients.** The duplicate detectors (the service's and the controller's),
  search with paging, the audit listing and its years, creation, update and
  deletion of patients, and age calculation.
- **Sales.** Sale capture, in the service and in the controller, with a header,
  detail lines and initial payments stored all-or-nothing, and the read side
  (a sale with its lines and payments, and a patient's sales).
- **Consultations.** A consultation with its graduations, a standalone
  graduation, listing, and deletion.
- **Users, tenant and configuration.** Tenant resolution from the `tenant`
  claim, the permission, target-schema and may-modify rules, the user
  endpoints, and the configuration upsert with the schema-name filter.
- **Frontend helpers.** Phone formatting, the diopter input, the
  historical-capture wizard (step counter, reset, step 4's payments and sale
  payload), and the two patient forms: the age and date sync, the duplicate
  gate, the payload, and the back-dating of an existing patient.

How the model is built:

- **The store** is the class `Data.ApplicationDbContext`. It has one sequence
  per table, a map from user to roles, the set of roles, and a counter that
  hands out fresh keys.
  - A state-changing endpoint is a method on that store. Its `ensures` says the
    new store and reply equal a specification function of the old store
    (`...Spec`).
  - Lemmas about the specification functions carry the properties.
  - A transaction is "the new state, or the old state unchanged". The
    database's foreign-key and length checks become explicit predicates
    (`DbConstraints`).
- **Queries and pure helpers** are functions.
- **React components that keep state** (the capture context, step 4, the two
  patient forms) are classes. Each handler is a method whose `ensures` gives the
  new state.
  - Server replies are parameters.
  - Requests are returned as a sequence.
  - The parent's callbacks become returned values.
- **Inputs from outside** are parameters: the clock ("now", "today"), fresh
  keys, Identity's answers, and `Date.now()` ids.
- **JavaScript's number readers** are in `JsNumbers`: `parseFloat`,
  `parseInt` and `Number` over decimal text.
- **Types.** Money and diopters are exact reals. Dates are calendar triples.

The sales controller persists exactly the rows the sales service persists, since
`SalesController.CreateSaleSpec` is the service's capture with the failure
mapped to a 500. Its listing of a patient's sales is proved equal to the
service's.

The source disagrees with itself in three places. The model uses the
definitions the code evidently means:

- The backend's `PatientDto` class declares no `FechaNacimiento`, yet
  `PatientExtensions.ToDto` assigns one. The model gives the DTO an optional
  birth date, which the extension fills. The controller's own projections leave
  it empty.
- `ApplicationUser` is used with a `NombreEsquema` that its shown definition
  lacks. The model gives users an optional schema.
- `PatientForm.jsx` imports `calculateAgeFromDate`, `calculateDateFromAge` and
  `formatDateForInput` from `dateUtils.js`, which defines only
  `formatDateLong`. The model uses the historical form's definitions of the
  first two.

## Model

| member | source | states |
|---|---|---|
| PatientDuplicationService.Normalize | OpticBackend/Services/PatientDuplicationService.cs:39-42 | the probe's name is the input name trimmed and lowercased; each surname is present exactly when given, and then it is trimmed and lowercased; the phone likewise, trimmed but not lowercased |
| PatientDuplicationService.CandidatesSound | OpticBackend/Services/PatientDuplicationService.cs:33-59 | every candidate is a stored patient that meets the name rule or the phone rule, and is never the excluded id |
| PatientDuplicationService.FindDuplicates | OpticBackend/Services/PatientDuplicationService.cs:23-66 | at most 10 results, drawn (as a multiset) from the candidates: stored patients that are duplicates of the normalised input and never the excluded patient |
| PatientDuplicationService.FindDuplicatesOrderAndCompleteness | OpticBackend/Services/PatientDuplicationService.cs:47-63 | the ten newest matches: newest registration first, a sub-multiset of the matches of length min(matches, 10), every match when there are at most 10, and no match left out registered after one returned |
| PatientDuplicationService.NoPaternoOnlyPhone | OpticBackend/Services/PatientDuplicationService.cs:49-59 | with no paternal surname in the input, a patient is a duplicate if and only if the phone rule holds |
| PatientDuplicationService.ShortPhoneNeverMatches | OpticBackend/Services/PatientDuplicationService.cs:42-59 | a missing phone, or one of 5 characters or fewer once trimmed, never matches by phone |
| PatientDuplicationService.OwnNameMatches | OpticBackend/Services/PatientDuplicationService.cs:39-56 | a stored patient's own name and surnames, padded with leading blanks, match that patient by the name rule |
| PatientExtensions.CalculateAge | OpticBackend/Extensions/PatientExtensions.cs:16-30 | the age is null exactly when the birth date is null |
| PatientExtensions.AgeMonthDayRule | OpticBackend/Extensions/PatientExtensions.cs:20-27 | the age is the difference of years, less one exactly when today's month and day come before the birthday's |
| PatientExtensions.AgeBetweenBirthdays | OpticBackend/Extensions/PatientExtensions.cs:20-29 | for a birth date not after today the age a is non-negative, today is on or after the a-th anniversary and before the (a+1)-th |
| PatientExtensions.AgeMonotone | OpticBackend/Extensions/PatientExtensions.cs:20-29 | a later day never gives a smaller age |
| PatientExtensions.LeapDayBirthdayOnCommonYear | OpticBackend/Extensions/PatientExtensions.cs:24 | born 2000-02-29, on 2001-02-28 the age is 0 although adding one year to the birth date lands on that day |
| PatientExtensions.ToDto | OpticBackend/Extensions/PatientExtensions.cs:37-55 | the DTO's age is computed from the birth date, which it carries |
| PatientExtensions.ToDtoLosesOnlyMetadata | OpticBackend/Extensions/PatientExtensions.cs:37-55 | reading the DTO back gives the patient again, all but its metadata |
| Dates.AddYears | OpticBackend/Extensions/PatientExtensions.cs:24 | the year moves by n with month and day kept, except 29 February becomes the 28th in a common year; a valid date stays valid |
| Dates.SpecifyUtcIfUnspecified | OpticBackend/Controllers/PatientsController.cs:267-271 | the clock value is kept, an unspecified kind becomes UTC, any other kind is kept |
| Dates.SpecifyUtcIdempotent | OpticBackend/Controllers/PatientsController.cs:324 | relabelling twice is relabelling once |
| PatientsController.ListDto | OpticBackend/Controllers/PatientsController.cs:131-145 | the listing DTO keeps the patient's id, name and registration date, computes its age from the birth date and carries no birth date |
| PatientsController.ListDtoIsToDtoWithoutBirthDate | OpticBackend/Controllers/PatientsController.cs:131-145 | the controller's projection is the extension's DTO with the birth date dropped |
| PatientsController.GetAuditYears | OpticBackend/Controllers/PatientsController.cs:27-43 | strictly descending, and a year is listed if and only if some patient registered in it |
| PatientsController.AuditPrefix | OpticBackend/Controllers/PatientsController.cs:56 | one character: the letter's first character lowercased |
| PatientsController.GetAuditPatients | OpticBackend/Controllers/PatientsController.cs:47-97 | BadRequest if and only if the letter is null or empty; otherwise the DTOs of the audit rows for that year and first letter |
| PatientsController.AuditRowsSpec | OpticBackend/Controllers/PatientsController.cs:62-72 | the rows are a permutation of the patients of that year whose paternal surname starts with the letter, ordered by paternal surname, maternal surname and name |
| PatientsController.AuditUsesFirstLetterOnly | OpticBackend/Controllers/PatientsController.cs:51-56 | two letters whose first characters agree ignoring case give the same answer |
| PatientsController.AuditLeIsPreorder | OpticBackend/Controllers/PatientsController.cs:68-72 | the audit ordering is total and transitive, so sorting by it is well defined |
| PatientsController.Searched | OpticBackend/Controllers/PatientsController.cs:111-120 | no search keeps everyone; otherwise a patient is kept if and only if the lowercased term occurs in its lowercased name, paternal surname, email or its phone |
| PatientsController.TotalPagesIsCeiling | OpticBackend/Controllers/PatientsController.cs:153 | the page count is the ceiling of items over page size, and zero only without items |
| PatientsController.EveryItemOnAPage | OpticBackend/Controllers/PatientsController.cs:125-153 | every item position lies on a page between 1 and the page count, inside that page's window |
| PatientsController.GetPatients | OpticBackend/Controllers/PatientsController.cs:102-161 | a 500 if and only if the offset or the page size is negative; otherwise the total is the number of matches and the page is echoed |
| PatientsController.GetPatientsPage | OpticBackend/Controllers/PatientsController.cs:122-153 | for a positive page and size the items are the window of the matches sorted newest first, and the page count is the ceiling |
| PatientsController.GetPatient | OpticBackend/Controllers/PatientsController.cs:165-189 | NotFound if and only if no patient has the id; otherwise that patient's DTO |
| PatientsController.CheckRows | OpticBackend/Controllers/PatientsController.cs:218-233 | min(matches, 10) rows, drawn (as a multiset) from the patients meeting one of the four match cases |
| PatientsController.CheckDuplicates | OpticBackend/Controllers/PatientsController.cs:195-258 | 400 exactly when the name is blank ([Required] at OpticBackend/Dtos/PatientDtos.cs:23); otherwise one list DTO per row CheckRows selects, in its order, none carrying a birth date |
| PatientsController.CheckRowsOrderAndCompleteness | OpticBackend/Controllers/PatientsController.cs:218-233 | the ten newest matches: newest registration first, every match when there are at most 10, and no match left out registered after one returned |
| PatientsController.BlankPhoneMatchesStrangers | OpticBackend/Controllers/PatientsController.cs:211-233 | a request "Luis Perez" with a blank phone gets back the unrelated "Ana Lopez" stored with a blank phone |
| PatientsController.Provided | OpticBackend/Controllers/PatientsController.cs:214-216 | a contact value counts only when it is non-empty |
| PatientsController.CheckProbeCorrected | OpticBackend/Controllers/PatientsController.cs:211-216 | the corrected probe never holds a blank phone, email or address |
| PatientsController.CheckDuplicatesCorrected | OpticBackend/Controllers/PatientsController.cs:195-258 | 400 exactly when the name is blank; otherwise at most 10 DTOs, each of a stored patient matching the corrected probe |
| PatientsController.CorrectedBlankFieldsMatchOnlyByName | OpticBackend/Controllers/PatientsController.cs:218-233 | with blank contact fields the corrected check matches exactly by name and paternal surname |
| PatientsController.CorrectedAgreesOnNonBlank | OpticBackend/Controllers/PatientsController.cs:218-249 | when no contact field is blank the corrected check answers what the original does |
| PatientsController.NewPatient | OpticBackend/Controllers/PatientsController.cs:267-286 | the new patient is active with the request's name and birth date, registered at the given date or now, relabelled UTC |
| PatientsController.CreatePatientSucceeds | OpticBackend/Controllers/PatientsController.cs:262-299 | a valid name gives Ok with a fresh id, the patient appended and the store consistent |
| PatientsController.CreatePatient | OpticBackend/Controllers/PatientsController.cs:262-299 | the store and reply afterwards are the creation specification of the store before |
| PatientsController.ApplyUpdate | OpticBackend/Controllers/PatientsController.cs:312-327 | id and metadata are kept; the registration date changes only when one is supplied, relabelled UTC |
| PatientsController.ApplyUpdateOverwrites | OpticBackend/Controllers/PatientsController.cs:312-327 | a patient's own fields change nothing, an update applied twice equals once, and every listed field reads back as sent |
| PatientsController.UpdatePatientEffect | OpticBackend/Controllers/PatientsController.cs:303-346 | NotFound with the store unchanged if and only if the id is unknown; otherwise Ok, only that row is replaced and the store stays consistent |
| PatientsController.UpdatePatient | OpticBackend/Controllers/PatientsController.cs:303-346 | the store and reply afterwards are the update specification of the store before |
| PatientsController.DeletePatientOkIffUnreferenced | OpticBackend/Controllers/PatientsController.cs:350-370 | deletion succeeds if and only if nothing references the patient; a refusal is a 500 with the store unchanged |
| PatientsController.DeletePatient | OpticBackend/Controllers/PatientsController.cs:350-370 | the store and reply afterwards are the deletion specification of the store before |
| SalesService.NonEmpty | OpticBackend/Services/SalesService.cs:35 | an empty or null seller is stored as null, any other kept |
| SalesService.SaleHeader | OpticBackend/Services/SalesService.cs:27-40 | the header is "Activa", total and balance stored as supplied, dated as given or now relabelled UTC |
| SalesService.PaymentUser | OpticBackend/Services/SalesService.cs:78 | the payment's staff id, else the sale's, else null, never an empty string |
| SalesService.DetailRows | OpticBackend/Services/SalesService.cs:45-64 | one row per input line, in order, each linked to the sale |
| SalesService.PaymentRows | OpticBackend/Services/SalesService.cs:66-85 | one row per initial payment, in order |
| SalesService.AddLines | OpticBackend/Services/SalesService.cs:45-64 | the loop appends exactly the detail rows and advances the key counter by their number |
| SalesService.AddPayments | OpticBackend/Services/SalesService.cs:66-85 | the loop appends exactly the payment rows and advances the key counter by their number |
| SalesService.AddPayment | OpticBackend/Services/SalesService.cs:71-83 | one payment row is appended with the next key, the given date or now (relabelled UTC when unspecified) and the payment's staff id falling back to the sale's; only the payment table and the counter change |
| SalesService.NewSaleHeader | OpticBackend/Services/SalesService.cs:27-43 | the header is added with the next key |
| SalesService.CreateSaleAsync | OpticBackend/Services/SalesService.cs:21-97 | the store and reply afterwards are the capture specification of the store before |
| SalesService.CaptureRows | OpticBackend/Services/SalesService.cs:21-97 | on failure nothing persists and the error is rethrown; on success one header, one row per line and per payment, each copying its input |
| SalesService.CaptureSucceedsIff | OpticBackend/Services/SalesService.cs:87-96 | capture commits if and only if every reference exists, and the store stays consistent either way |
| SalesService.GetSaleById | OpticBackend/Services/SalesService.cs:100-105 | null if and only if no sale has the id; otherwise that sale with exactly its lines and payments |
| SalesService.GetSaleAfterCapture | OpticBackend/Services/SalesService.cs:100-105 | reading a captured sale back returns its header, lines and payments |
| SalesService.GetSalesByPatient | OpticBackend/Services/SalesService.cs:108-117 | one view per linked sale |
| SalesService.GetSalesByPatientSpec | OpticBackend/Services/SalesService.cs:108-117 | latest first, a permutation of the sales linked through the consultation or a line, each with its lines and payments |
| SalesController.AddPaymentsTotaling | OpticBackend/Controllers/SalesController.cs:74-94 | the service's payment rows are appended and `totalPagado` ends as the sum of the amounts |
| SalesController.CreateSale | OpticBackend/Controllers/SalesController.cs:28-110 | the store and reply are the service's capture, a failure being a 500; on success `totalPagado` is the sum of the payments |
| SalesController.CreateSaleSucceedsIff | OpticBackend/Controllers/SalesController.cs:28-110 | success if and only if every reference exists; a failure is a 500 with the store unchanged |
| SalesController.StoredPaymentsTotal | OpticBackend/Controllers/SalesController.cs:74-94 | the stored payments add up to the submitted payments |
| SalesController.GetSaleAfterCreate | OpticBackend/Controllers/SalesController.cs:139-149 | a created sale reads back with its lines and payments |
| SalesController.GetSalesByPatientIsService | OpticBackend/Controllers/SalesController.cs:115-135 | the doubled filter answers exactly what the service does |
| SalesController.GetSale | OpticBackend/Controllers/SalesController.cs:139-149 | NotFound if and only if no sale has the id; otherwise it with its lines and payments |
| ConsultationsController.JsonOrEmpty | OpticBackend/Controllers/ConsultationsController.cs:41 | a missing detail is stored as "{}" |
| ConsultationsController.GraduationRows | OpticBackend/Controllers/ConsultationsController.cs:50-71 | one graduation per submitted one, in order |
| ConsultationsController.AddGraduations | OpticBackend/Controllers/ConsultationsController.cs:50-71 | the loop appends exactly those rows |
| ConsultationsController.NewConsultationRow | OpticBackend/Controllers/ConsultationsController.cs:32-47 | the consultation is added with the next key |
| ConsultationsController.CreateConsultation | OpticBackend/Controllers/ConsultationsController.cs:27-83 | the store and reply are the creation specification of the store before |
| ConsultationsController.CreateConsultationRows | OpticBackend/Controllers/ConsultationsController.cs:27-83 | on failure nothing persists; on success the consultation dated as given or now, "{}" details, and one linked graduation per submitted one |
| ConsultationsController.CreateConsultationSucceedsIff | OpticBackend/Controllers/ConsultationsController.cs:27-83 | success if and only if the references exist and the graduations fit their columns; the store stays consistent |
| ConsultationsController.AddGraduation | OpticBackend/Controllers/ConsultationsController.cs:87-128 | the store and reply are the graduation specification of the store before |
| ConsultationsController.AddGraduationOutcome | OpticBackend/Controllers/ConsultationsController.cs:87-128 | NotFound with nothing added if and only if the consultation is unknown; otherwise one linked graduation with "{}" mounting by default |
| ConsultationsController.GetPatientConsultationsSpec | OpticBackend/Controllers/ConsultationsController.cs:156-165 | latest first, a permutation of that patient's consultations, each with its graduations |
| ConsultationsController.DeleteConsultation | OpticBackend/Controllers/ConsultationsController.cs:168-186 | the store and reply are the deletion specification of the store before |
| ConsultationsController.DeleteConsultationOkIff | OpticBackend/Controllers/ConsultationsController.cs:168-186 | deletion succeeds if and only if nothing references the consultation; a refusal is BadRequest with the store unchanged; success removes its graduations too |
| TenantMiddleware.FindFirst | OpticBackend/Middleware/TenantMiddleware.cs:21 | the value of the first claim of that type, null if there is none |
| TenantMiddleware.ResolveTenant | OpticBackend/Middleware/TenantMiddleware.cs:16-39 | an authenticated request with a non-empty tenant claim takes that claim; otherwise the tenant is kept |
| TenantMiddleware.ResolveTenantIdempotent | OpticBackend/Middleware/TenantMiddleware.cs:16-39 | resolving twice is resolving once |
| TenantMiddleware.InvokeAsync | OpticBackend/Middleware/TenantMiddleware.cs:16-39 | the tenant cell is settled, then the next handler runs once, seeing it |
| UserAuthorization.FindById | OpticBackend/Services/UserAuthorizationService.cs:21 | a user with that id, null if and only if none exists |
| UserAuthorization.GetUserPermissions | OpticBackend/Services/UserAuthorizationService.cs:19-33 | an unknown user has no rights and schema ""; Root and Admin follow the roles, manage is Root or Admin, a null schema reads "" |
| UserAuthorization.PermissionsSchema | OpticBackend/Services/UserAuthorizationService.cs:32 | the schema reported is the user's own |
| UserAuthorization.DetermineTargetSchema | OpticBackend/Services/UserAuthorizationService.cs:35-45 | Root gets the requested schema or "public" for null; anyone else gets the creator's schema |
| UserAuthorization.NonRootTargetsOwnSchema | OpticBackend/Services/UserAuthorizationService.cs:44 | a non-Root caller always targets its own schema |
| UserAuthorization.CanModifyUser | OpticBackend/Services/UserAuthorizationService.cs:47-78 | true only for two existing users where the caller is Root or Admin |
| UserAuthorization.CanModifyUserIff | OpticBackend/Services/UserAuthorizationService.cs:47-78 | may modify if and only if Root, or Admin over a non-Root of the same schema |
| UserAuthorization.CanModifyNeedsManage | OpticBackend/Services/UserAuthorizationService.cs:47-78 | whoever may modify a user has manage rights |
| UserAuthorization.AdminNeverModifiesRoot | OpticBackend/Services/UserAuthorizationService.cs:67-77 | a non-Root never modifies a Root |
| UserAuthorization.RootModifiesAnyone | OpticBackend/Services/UserAuthorizationService.cs:64 | Root may modify any existing user |
| UsersController.GetUsers | OpticBackend/Controllers/UsersController.cs:36-69 | the reply is the listing specification of the store |
| UsersController.GetUsersVisibility | OpticBackend/Controllers/UsersController.cs:46-49 | a user is listed if and only if the caller is Root or shares its schema |
| UsersController.GetUsersDtos | OpticBackend/Controllers/UsersController.cs:55-65 | each listed user shows its schema ("" for null), its first role or "Sin Rol", and its active flag |
| UsersController.TargetRole | OpticBackend/Controllers/UsersController.cs:109-113 | a non-Root never assigns Root: that request becomes "Vendedor" and any other role is kept |
| UsersController.CreateUser | OpticBackend/Controllers/UsersController.cs:73-121 | the store and reply are the creation specification of the store before: 400 for a blank required field, 401 without a caller id, 500 for a caller that may not manage users (`Forbid` with a message), 400 when Identity refuses, else the user and its role |
| UsersController.CreateUserOutcome | OpticBackend/Controllers/UsersController.cs:73-121 | success if and only if the required fields are present, the caller may manage and Identity accepts; the user lands in the target schema with the target role only if that role exists, no one else's roles change |
| UsersController.CreateUserConsistent | OpticBackend/Controllers/UsersController.cs:73-121 | a refusal leaves the store unchanged and the store stays consistent |
| UsersController.ChangeRole | OpticBackend/Controllers/UsersController.cs:162-184 | the store and reply are the role-change specification |
| UsersController.UpdateUser | OpticBackend/Controllers/UsersController.cs:125-187 | the store and reply are the update specification of the store before: 400 for a blank required field, 401, 403 for a caller neither Root nor Admin, 404, 500 when the caller may not modify the target (`Forbid` with a message), then the field and role update |
| UsersController.UpdateUserConsistent | OpticBackend/Controllers/UsersController.cs:125-187 | an update keeps the store consistent |
| UsersController.UpdateUserGuards | OpticBackend/Controllers/UsersController.cs:125-187 | nothing changes unless the required fields are present, a known caller may modify the user and Identity accepts; a non-Root changes no schema and creates no Root |
| UsersController.UpdateUserNullRole | OpticBackend/Controllers/UsersController.cs:162-184 | an update sending no role removes the current role, then fails |
| UsersController.DeleteUser | OpticBackend/Controllers/UsersController.cs:191-235 | the store and reply are the deletion specification of the store before: 401, 403 for a caller neither Root nor Admin, 404, 400 for oneself, 500 when the caller may not modify the target (`Forbid` with a message) or rows reference it, else the user and its roles are removed |
| UsersController.DeleteUserGuards | OpticBackend/Controllers/UsersController.cs:191-235 | no one deletes themself; success if and only if a known caller may modify an unreferenced user and Identity accepts; the user and its roles are gone |
| UsersController.DeleteUserRefusedIff | OpticBackend/Controllers/UsersController.cs:229-233 | the database refuses the deletion if and only if the user is referenced |
| UsersController.PermissionRefusalIsServerError | OpticBackend/Controllers/UsersController.cs:80-83 | as written, every refusal by the permission check (create, update, delete) answers 500 with the store unchanged |
| UsersController.CrossSchemaDeleteIsServerError | OpticBackend/Controllers/UsersController.cs:212-217 | an Admin of schema "a" deleting a user of schema "b" gets 500 |
| UsersController.CreateUserIntendedForbids | OpticBackend/Controllers/UsersController.cs:78-83 | corrected: 403 exactly for a valid request from a caller that may not manage users, with the store unchanged; a 500 is then never that refusal |
| UsersController.UpdateUserIntendedForbids | OpticBackend/Controllers/UsersController.cs:128-143 | corrected: 403 exactly for a valid request from a known caller neither Root nor Admin, or not allowed to modify the stored target; the store unchanged |
| UsersController.DeleteUserIntendedForbids | OpticBackend/Controllers/UsersController.cs:196-217 | corrected: 403 exactly for a known caller neither Root nor Admin, or not allowed to modify a stored target other than itself; the store unchanged |
| ConfiguracionController.GetConfiguracion | OpticBackend/Controllers/ConfiguracionController.cs:29-49 | 401 without a token; otherwise NotFound if and only if there is no row, else the first row |
| ConfiguracionController.UpsertTarget | OpticBackend/Controllers/ConfiguracionController.cs:97-115 | an existing row is chosen whenever one exists |
| ConfiguracionController.UpdateConfiguracion | OpticBackend/Controllers/ConfiguracionController.cs:89-144 | the store and reply are the update specification of the store before: the role gate, validation, then the upsert |
| ConfiguracionController.Authorize | OpticBackend/Controllers/ConfiguracionController.cs:53 | 401 exactly without a token, 403 when the token holds none of the roles required, no objection otherwise |
| ConfiguracionController.UpdateConfiguracionGuards | OpticBackend/Controllers/ConfiguracionController.cs:89-144 | success exactly for a Root or Admin caller whose name and colours are not blank (OpticBackend/Models/ConfiguracionSistema.cs:13-33), and then the upsert; 401 without a token, 403 for other roles; every refusal leaves the store unchanged |
| ConfiguracionController.Upsert | OpticBackend/Controllers/ConfiguracionController.cs:94-143 | the store and reply are the upsert specification of the store before, and the store stays valid |
| ConfiguracionController.UpdateConfiguracionConsistent | OpticBackend/Controllers/ConfiguracionController.cs:92-144 | the upsert keeps the store consistent |
| ConfiguracionController.UpsertChoosesRow | OpticBackend/Controllers/ConfiguracionController.cs:97-123 | the row with a non-empty matching id is updated, else the first row; a row is created only when there is none; nothing else changes |
| ConfiguracionController.UpsertCopiesFields | OpticBackend/Controllers/ConfiguracionController.cs:129-140 | the display fields are copied, the id is never overwritten and the update time is now |
| ConfiguracionController.GetAfterUpsert | OpticBackend/Controllers/ConfiguracionController.cs:92-144 | reading the configuration back shows the upserted row exactly when that row is the first |
| ConfiguracionController.LikePgIff | OpticBackend/Controllers/ConfiguracionController.cs:62 | `LIKE 'pg_%'` holds exactly for names of 3 or more characters starting with "pg" |
| ConfiguracionController.SchemaListedIff | OpticBackend/Controllers/ConfiguracionController.cs:62 | a schema is listed if and only if it does not match that pattern and is neither "information_schema" nor "public" |
| ConfiguracionController.GetAvailableSchemas | OpticBackend/Controllers/ConfiguracionController.cs:52-75 | 401 without a token, 403 for a caller that is not Root, else exactly the listed names in order |
| ConfiguracionController.ReadSchemas | OpticBackend/Controllers/ConfiguracionController.cs:61-72 | the read loop keeps exactly the listed names, in order |
| FormatUtils.FormatPhoneNumber | OpticFrontend/src/utils/formatUtils.js:13-38 | text without exactly 10 digits comes back unchanged; 10 digits give a 16-character layout |
| FormatUtils.FormatPhoneLayout | OpticFrontend/src/utils/formatUtils.js:24-37 | the layout keeps the 10 digits in order; prefixes 33, 55, 81 give (XX) XX XX XX XX, others (XXX) X XX XX XX |
| FormatUtils.FormatPhoneIdempotent | OpticFrontend/src/utils/formatUtils.js:13-38 | formatting a formatted number changes nothing |
| FormatUtils.DigitsAreDigits | OpticFrontend/src/utils/formatUtils.js:17 | cleaning leaves only digits |
| FormatUtils.LocalLayout | OpticFrontend/src/utils/formatUtils.js:28-31 | the two-digit-area layout keeps the digits and fits its mask |
| FormatUtils.NationalLayout | OpticFrontend/src/utils/formatUtils.js:32-37 | the three-digit-area layout keeps the digits and fits its mask |
| JsNumbers.EmptyText | OpticFrontend/src/components/common/DiopterInput.jsx:8-11 | empty text is not a number for `parseFloat` and `parseInt` but is 0 for `Number` |
| JsNumbers.ParseDigits | OpticFrontend/src/components/historical/steps/Step4_Sale.jsx:62 | a string of digits reads as its decimal value for all three readers |
| JsNumbers.ParseFloatLeadingSpace | OpticFrontend/src/components/common/DiopterInput.jsx:11 | leading blanks do not change what `parseFloat` and `parseInt` read |
| JsNumbers.ToNumberAgrees | OpticFrontend/src/components/common/DiopterInput.jsx:8-11 | text that passes the `isNaN` test and is not blank gives `parseFloat` the same number |
| DiopterInput.RoundHalfUp | OpticFrontend/src/components/common/DiopterInput.jsx:11-16 | the nearest integer, halves rounded up |
| DiopterInput.RoundHalfUpFixes | OpticFrontend/src/components/common/DiopterInput.jsx:11-16 | whole numbers round to themselves |
| DiopterInput.QuarterRoundNearest | OpticFrontend/src/components/common/DiopterInput.jsx:11-16 | quarter rounding lands on a quarter within an eighth of the value |
| DiopterInput.QuarterRoundFixes | OpticFrontend/src/components/common/DiopterInput.jsx:11-16 | quarters round to themselves |
| DiopterInput.Adjusted | OpticFrontend/src/components/common/DiopterInput.jsx:11-23 | the value never exceeds the maximum, not below a consistent minimum, and a cylinder is never positive |
| DiopterInput.AdjustedNearest | OpticFrontend/src/components/common/DiopterInput.jsx:11-20 | inside the bounds, a sphere value is the quarter nearest the input |
| DiopterInput.AdjustedOnGrid | OpticFrontend/src/components/common/DiopterInput.jsx:11-23 | with bounds on the grid the result is on the grid (whole for an axis, quarters otherwise) |
| DiopterInput.AdjustedIdempotent | OpticFrontend/src/components/common/DiopterInput.jsx:7-33 | adjusting an adjusted value changes nothing |
| DiopterInput.Render | OpticFrontend/src/components/common/DiopterInput.jsx:25-31 | an axis shows its integer; other values show two decimals with "+" exactly when positive and not a cylinder |
| DiopterInput.FormatValue | OpticFrontend/src/components/common/DiopterInput.jsx:7-33 | blank exactly for empty or non-numeric text; a number shows its adjusted value |
| DiopterInput.FormatTypedText | OpticFrontend/src/components/common/DiopterInput.jsx:7-33 | typed numeric text shows its adjusted value; blank-only text shows NaN |
| DiopterInput.HandleStep | OpticFrontend/src/components/common/DiopterInput.jsx:35-44 | a step always yields a shown number |
| DiopterInput.StepMovesOneQuarter | OpticFrontend/src/components/common/DiopterInput.jsx:35-44 | inside the bounds a sphere steps exactly one quarter up or down |
| DiopterInput.StepFromEmpty | OpticFrontend/src/components/common/DiopterInput.jsx:35-44 | an empty field steps from 0 to +0.25 or -0.25 |
| DiopterInput.AxisStepsOneDegree | OpticFrontend/src/components/common/DiopterInput.jsx:35-44 | inside the bounds an axis steps exactly one degree |
| DiopterInput.HandleBlur | OpticFrontend/src/components/common/DiopterInput.jsx:46-51 | "-", "+" and "" are left alone; anything else is reformatted |
| HistoricalCapture.BlankGraduationForm | OpticFrontend/src/context/HistoricalCaptureContext.jsx:33-37 | exactly the nine graduation fields, all empty |
| HistoricalCapture.InitialSaleForm | OpticFrontend/src/context/HistoricalCaptureContext.jsx:40-47 | the first sale form has the five sale fields and the seller slot |
| HistoricalCapture.ResetSaleForm | OpticFrontend/src/context/HistoricalCaptureContext.jsx:67-73 | the reset sale form is the first one without the seller slot |
| HistoricalCapture.PrevStepOf | OpticFrontend/src/context/HistoricalCaptureContext.jsx:78 | one step back, never below step 1 |
| HistoricalCapture.PrevUndoesNext | OpticFrontend/src/context/HistoricalCaptureContext.jsx:77-78 | back after forward returns to the same step |
| HistoricalCapture.BackToFirst | OpticFrontend/src/context/HistoricalCaptureContext.jsx:78 | n steps back from any step up to n + 1 reaches step 1 |
| HistoricalCapture.Capture.constructor | OpticFrontend/src/context/HistoricalCaptureContext.jsx:11-50 | step 1, nothing captured, idle, blank forms with today's consultation |
| HistoricalCapture.Capture.NextStep | OpticFrontend/src/context/HistoricalCaptureContext.jsx:77 | the step grows by one |
| HistoricalCapture.Capture.PrevStep | OpticFrontend/src/context/HistoricalCaptureContext.jsx:78 | the step goes back one, never below 1 |
| HistoricalCapture.Capture.ResetFlow | OpticFrontend/src/context/HistoricalCaptureContext.jsx:54-75 | step 1, nothing captured, no error or success, blank forms, no payments, and no seller slot |
| Step4Sale.TotalPagadoAppend | OpticFrontend/src/components/historical/steps/Step4_Sale.jsx:73 | appending a payment adds its amount to the total paid |
| Step4Sale.WithoutPayment | OpticFrontend/src/components/historical/steps/Step4_Sale.jsx:69-71 | no entry with that id remains and every other entry does |
| Step4Sale.RemoveMissingId | OpticFrontend/src/components/historical/steps/Step4_Sale.jsx:69-71 | removing an absent id changes nothing |
| Step4Sale.RemoveUndoesAdd | OpticFrontend/src/components/historical/steps/Step4_Sale.jsx:61-71 | removing a just-added payment with a fresh id restores the list |
| Step4Sale.WithKeyword | OpticFrontend/src/components/historical/steps/Step4_Sale.jsx:51-56 | the notes, then one space only when they were non-empty, then the keyword |
| Step4Sale.Seller | OpticFrontend/src/components/historical/steps/Step4_Sale.jsx:90 | a seller is sent exactly when the seller slot holds non-empty text |
| Step4Sale.SaleAttempt | OpticFrontend/src/components/historical/steps/Step4_Sale.jsx:83-110 | a missing patient, consultation or graduation fails on the null, and a payload is ready exactly when all three have ids |
| Step4Sale.SalePayloadShape | OpticFrontend/src/components/historical/steps/Step4_Sale.jsx:80-106 | balance plus payments equals the total, one line priced at the total, one payment per entry in order, dated by the sale date or the consultation's |
| Step4Sale.ResetFormHasNoSeller | OpticFrontend/src/context/HistoricalCaptureContext.jsx:40-73 | neither sale form names a seller, and only the first has the slot |
| Step4Sale.NoPostWithoutIds | OpticFrontend/src/components/historical/steps/Step4_Sale.jsx:108-110 | without all three ids no sale is posted |
| Step4Sale.SaleStep.constructor | OpticFrontend/src/components/historical/steps/Step4_Sale.jsx:14-18 | an empty amount dated today, paid in cash |
| Step4Sale.SaleStep.HandlePaymentChange | OpticFrontend/src/components/historical/steps/Step4_Sale.jsx:59 | only the named field of the payment being typed changes |
| Step4Sale.SaleStep.AddPayment | OpticFrontend/src/components/historical/steps/Step4_Sale.jsx:61-67 | an amount that does not read as positive changes nothing; otherwise one entry is appended, the total grows by it and only the amount is cleared |
| Step4Sale.SaleStep.RemovePayment | OpticFrontend/src/components/historical/steps/Step4_Sale.jsx:69-71 | the list loses exactly the entries with that id |
| Step4Sale.SaleStep.InsertKeyword | OpticFrontend/src/components/historical/steps/Step4_Sale.jsx:51-56 | only the notes change, gaining the keyword |
| Step4Sale.SaleStep.HandleSaleChange | OpticFrontend/src/components/historical/steps/Step4_Sale.jsx:139 | only the named sale field changes |
| Step4Sale.SaleStep.HandleSaveSale | OpticFrontend/src/components/historical/steps/Step4_Sale.jsx:75-137 | a post only with all ids; success shows the success message; each failure shows its own error; the step ends idle |
| PatientFormFields.NatTextValue | OpticFrontend/src/components/historical/HistoricalPatientForm.jsx:41-44 | the decimal text of a number reads back as that number |
| PatientFormFields.Pad2 | OpticFrontend/src/components/historical/HistoricalPatientForm.jsx:42-43 | two digits |
| PatientFormFields.Pad2Value | OpticFrontend/src/components/historical/HistoricalPatientForm.jsx:42-43 | the two digits read back as the number |
| PatientFormFields.ParseIsoDate | OpticFrontend/src/components/historical/HistoricalPatientForm.jsx:29 | a date is read only from "YYYY-MM-DD" text naming a real day |
| PatientFormFields.IsoRoundTrip | OpticFrontend/src/components/historical/HistoricalPatientForm.jsx:38-45 | the text written for a 4-digit-year date reads back as that date |
| PatientFormFields.AgeFromDate | OpticFrontend/src/components/historical/HistoricalPatientForm.jsx:26-36 | an empty date gives an empty age and nothing else does |
| PatientFormFields.DateFromAge | OpticFrontend/src/components/historical/HistoricalPatientForm.jsx:38-45 | an empty age gives an empty date and nothing else does |
| PatientFormFields.FrontendAgeMatchesBackend | OpticFrontend/src/components/historical/HistoricalPatientForm.jsx:26-36 | the form's age of a readable date is the backend's age for it |
| PatientFormFields.AgeDateRoundTrip | OpticFrontend/src/components/historical/HistoricalPatientForm.jsx:26-45 | the age of the date computed from an age is that age |
| PatientFormFields.EmptyForm | OpticFrontend/src/components/historical/HistoricalPatientForm.jsx:6-19 | a blank form, active, with the given registration date |
| PatientFormFields.Changed | OpticFrontend/src/components/historical/HistoricalPatientForm.jsx:47-59 | a birth date recomputes the age, an age recomputes the birth date, a text or the checkbox sets its field |
| PatientFormFields.ChangedTouchesOnlyItsInput | OpticFrontend/src/components/historical/HistoricalPatientForm.jsx:47-59 | no other field changes |
| PatientFormFields.AgeThenDateAgree | OpticFrontend/src/components/historical/HistoricalPatientForm.jsx:52-56 | after typing an age, the birth date shown gives back that age |
| PatientFormFields.PayloadOf | OpticFrontend/src/components/historical/HistoricalPatientForm.jsx:69-71 | an empty birth date is sent as null, any other as typed; the contact fields are sent as typed |
| PatientFormFields.PayloadIgnoresAge | OpticFrontend/src/components/historical/HistoricalPatientForm.jsx:69-71 | the age is not sent |
| PatientFormFields.BindPayload | OpticBackend/Dtos/PatientDtos.cs:21-38 | the request binds exactly when its dates are readable; contact texts arrive as given and the registration at midnight of its day |
| PatientFormFields.SubmittedDates | OpticFrontend/src/components/historical/HistoricalPatientForm.jsx:69-71 | the dates on the form reach the backend as the same calendar days |
| PatientFormFields.BackDateUpdate | OpticFrontend/src/components/historical/HistoricalPatientForm.jsx:132-144 | the update copies the existing patient's fields and carries the form's registration date (PatientForm.jsx sends the same body, OpticFrontend/src/components/patients/PatientForm.jsx:110-122) |
| PatientFormFields.BackDateMovesEarlier | OpticFrontend/src/components/historical/HistoricalPatientForm.jsx:120-150 | when the rule fires, the stored registration moves strictly earlier |
| PatientFormFields.BackDateErasesBirthDate | OpticFrontend/src/components/historical/HistoricalPatientForm.jsx:132-144 | back-dating a patient picked from the duplicate list erases its birth date |
| PatientFormFields.BackDateErasesExample | OpticFrontend/src/components/historical/HistoricalPatientForm.jsx:132-144 | a patient born 1990-05-10 loses the birth date once back-dated |
| PatientFormFields.CheckDuplicatesWithBirthDate | OpticBackend/Controllers/PatientsController.cs:235-249 | the duplicate list with birth dates differs from the original only in them |
| PatientFormFields.BackDateKeepsPatient | OpticFrontend/src/components/historical/HistoricalPatientForm.jsx:132-150 | from that list, back-dating changes the stored patient's registration date and nothing else |
| HistoricalPatientForm.ErrorText | OpticFrontend/src/components/historical/HistoricalPatientForm.jsx:108-110 | the thrown message, or "Error desconocido" when it is empty |
| HistoricalPatientForm.CreateError | OpticFrontend/src/components/historical/HistoricalPatientForm.jsx:93-110 | an error is shown exactly when the patient was not created |
| HistoricalPatientForm.PatientStep.constructor | OpticFrontend/src/components/historical/HistoricalPatientForm.jsx:6-19 | a blank form registered today, idle, with no duplicates shown |
| HistoricalPatientForm.PatientStep.HandleChange | OpticFrontend/src/components/historical/HistoricalPatientForm.jsx:47-59 | the form becomes the changed form |
| HistoricalPatientForm.PatientStep.HandleSubmit | OpticFrontend/src/components/historical/HistoricalPatientForm.jsx:61-114 | the check is skipped exactly when forced; a found list is shown and nothing created; otherwise the created patient goes to the parent; a failed forced creation stays busy |
| HistoricalPatientForm.PatientStep.HandleUseExisting | OpticFrontend/src/components/historical/HistoricalPatientForm.jsx:116-163 | the back-dating request only for an earlier form date; the patient goes to the parent unless that request throws; idle with the duplicates closed |
| HistoricalPatientForm.PatientStep.CancelDuplicates | OpticFrontend/src/components/historical/HistoricalPatientForm.jsx:191 | the duplicate list closes |
| PatientForm.PatientDialog.constructor | OpticFrontend/src/components/patients/PatientForm.jsx:7-20 | the dialog starts idle with its initial form |
| PatientForm.PatientDialog.HandleChange | OpticFrontend/src/components/patients/PatientForm.jsx:46-59 | the form becomes the changed form |
| PatientForm.PatientDialog.HandleSubmit | OpticFrontend/src/components/patients/PatientForm.jsx:63-99 | the check only for an unforced creation; a found list stops it; otherwise update or create, closing on success |
| PatientForm.PatientDialog.HandleUseExisting | OpticFrontend/src/components/patients/PatientForm.jsx:101-136 | the back-dating update only for an earlier form date; lists refresh on success; the dialog always closes |
| PatientForm.PatientDialog.CloseDuplicates | OpticFrontend/src/components/patients/PatientForm.jsx:147 | the duplicate list closes |

## Left out

- HTTP routing, status-code bodies, logging, JSON serialisation and EF Core itself are out. A reply is a `Result` with a failure kind. The clinical and mounting JSON is an opaque string apart from the "{}" default.
- The store's own code (`ApplicationDbContext`, `TenantService`, the per-schema query rewriting) is not part of this model. `Data.ApplicationDbContext` is a stand-in whose `SaveChanges` answers the database's constraints, written as explicit reference and length checks.
- Fresh keys come from a counter. `Guid.NewGuid`, Identity's user ids, `DateTime.Now`, `new Date()` and `Date.now()` are parameters.
- ASP.NET Identity is represented by its answers. Password and user validators are a boolean parameter (`accepted`). Role names are compared exactly, without Identity's normalisation.
- `ToLower` is ASCII lowering and `Trim` trims ASCII blanks; culture rules are out. String order is code-point order, standing in for the database collation.
- Money and diopters are exact reals. Binary floating point, `toFixed`, and `parseFloat`'s exponents, hexadecimal and `Infinity` are out.
- JavaScript time zones are out. `new Date("YYYY-MM-DD")` is read as that calendar day.
- The `X-Tenant-ID` header the frontend sends is out, because no backend code shown reads it. `Program.cs` does not register the tenant middleware; the model describes the middleware on its own.
- `GetConsultation`, `GetGraduation`, `GetTest` and the bodies of `CreatedAtAction` replies are out; they only read or echo.
- React rendering, the sellers fetch in step 4 and `localStorage` are out. The V8 text of the error thrown on a null capture slot is a constant (`NullIdMessage`).
- PatientForm's edit-mode initialisation is out, because it calls `formatDateForInput`, which `dateUtils.js` does not define. The dialog's constructor takes its first form as a parameter.
- PatientExtensions.AgeBetweenBirthdays: states the bound with calendar anniversaries rather than with `AddYears`. With the clamped `AddYears` the bound is false: `LeapDayBirthdayOnCommonYear` gives the case.
- PatientFormFields.ParseIsoDate: is stricter than a browser's `Date`. It reads only "YYYY-MM-DD" text naming a real day; engines may roll an impossible day over.
- PatientFormFields.AgeDateRoundTrip: is proved for 4-digit years and for ages whose date exists (not 29 February of a common year), where the browser would roll the day over.
- PatientFormFields.IsoRoundTrip: is proved for 4-digit years only; the year text is not padded.
- HistoricalPatientForm.PatientStep.HandleSubmit: the form stays busy after a failed forced creation. The closing step reads the duplicates from before the submission, and this is modelled as the code behaves.
- PatientForm.PatientDialog.HandleSubmit: the same stale busy flag as the historical form.
- DiopterInput.Render: returns the number and sign to show, not the two-decimal string `toFixed` builds.
- GetPatients: for a page size of 0 the source returns `(int)Math.Ceiling(totalItems / 0.0)`, the integer conversion of an infinite or NaN quotient, whose value depends on the .NET version; the model gives no page count there.
- `Sale.Fecha` and `Payment.FechaPago` are nullable in the source but always set in the model: every writer modelled sets them, and the place PostgreSQL gives null dates in the date-descending listings matters only for rows written elsewhere.
- Authentication itself is out: a request with no valid token is answered 401 before model validation, while the user actions model their own check of the caller id after it. The role claims of a token are a parameter of the configuration actions.
- Model validation is modelled for the fields that carry `[Required]`, C#'s `required`, or a non-nullable string type under the project's nullable context: a blank value answers 400. A property missing from the JSON body, which fails binding, is not representable.
- SalesService.CaptureSucceedsIff: the stand-in store does not check the `DateTimeKind` of a timestamp. The defaults are `DateTime.Now`, whose kind is `Local`, and only `Unspecified` is relabelled to UTC (SalesService.cs:30, :39-40, :76). A provider that refuses `Local` values for `timestamptz` columns would fail such a capture and roll it back with a 500, where the model commits it. The provider version is not in the source, so the model does not decide this.
- SalesController.CreateSaleSucceedsIff: the same unchecked date kind, for the `DateTime.Now` defaults at SalesController.cs:37 and :84.
- ConsultationsController.CreateConsultationSucceedsIff: the same unchecked date kind, for the `DateTime.Now` default at ConsultationsController.cs:35.
- Dates.DateTimeLess: compares clock readings only, so the date-descending listings treat a `Local` and a UTC time with the same reading as equal.
- ConsultationsController.DeleteConsultation: removing a consultation also removes its graduations. This assumes the database's foreign key cascades, as EF's convention for a required relationship gives; the schema is not part of this model.

## Findings

| source | as written | input that shows it | evidently intended | confidence | as-written member | corrected member |
|---|---|---|---|---|---|---|
| OpticBackend/Controllers/PatientsController.cs:214-231 | the phone, email and address rules test only for null, so a blank value (the form sends "") takes part in the match | a new patient "Luis Perez" with phone "" matches the unrelated "Ana Lopez" stored with phone "" | blank contact fields take no part in matching | not executed | PatientsController.BlankPhoneMatchesStrangers | PatientsController.CheckDuplicatesCorrected |
| OpticFrontend/src/components/historical/HistoricalPatientForm.jsx:132-144 | the back-dating PUT (here and at OpticFrontend/src/components/patients/PatientForm.jsx:118) copies `fechaNacimiento` from the duplicate list, whose DTOs (PatientsController.cs:235-249) carry none, and `UpdatePatient` overwrites the birth date with it | a patient born 1990-05-10 and registered 2024-03-01, picked from the duplicate list with the form date 2020-01-15, is stored without a birth date | back-dating changes only the registration date | not executed | PatientFormFields.BackDateErasesBirthDate | PatientFormFields.BackDateKeepsPatient |
| OpticBackend/Controllers/UsersController.cs:82 | `Forbid("No tienes permisos ...")` passes the message as an authentication scheme name; no handler has that name, so executing the result throws and the client gets 500 | a caller without user management creating a user | a refused create answers 403 | not executed | UsersController.PermissionRefusalIsServerError | UsersController.CreateUserIntendedForbids |
| OpticBackend/Controllers/UsersController.cs:142 | the same `Forbid` with a message when the caller may not modify the target | an Admin of one schema updating a user of another | a refused update answers 403 | not executed | UsersController.PermissionRefusalIsServerError | UsersController.UpdateUserIntendedForbids |
| OpticBackend/Controllers/UsersController.cs:216 | the same `Forbid` with a message when the caller may not modify the target | an Admin of schema "a" deleting a user of schema "b" | a refused delete answers 403 | not executed | UsersController.CrossSchemaDeleteIsServerError | UsersController.DeleteUserIntendedForbids |
