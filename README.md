# PANDA.Api core, modelled in Dafny

This project models the core of the PANDA patient-and-appointment API. It covers:

- the **NHS Number validator**: the FluentValidation rule chain, and the Modulus 11 check-digit loop as a method proved against a specification;
- the **appointment status logic** of the AutoMapper profile: deriving a status from the `IsCancelled` and `IsAttended` flags and the time, and the reverse map from a status back to the flags;
- the **appointment service**:
  - the two queries;
  - the three get-or-create resolutions of clinician, organisation and department rows;
  - the add and update write paths, with their exact error order and the time guard on a requested status;
- the **patient service**: get, add, update, delete and exists;
- the **JSON converter** of `AppointmentStatus`: case-insensitive read and canonical write;
- the **AppointmentDto validator**: the Patient rule chain with `CascadeMode.Stop`, and the UK postcode regular expression;
- the **`MissedAppointments` getters** of `Clinician` and `Department`.

The EF Core database context becomes the class `Data.PandaContext`:

- patients are a map keyed by NHS number;
- appointments are a map keyed by id;
- clinicians, organisations and departments are sequences, because the source scans them with `FirstOrDefault`;
- a counter supplies fresh `Guid`s.

The store's invariant `Valid()` says that:

- every patient and appointment is stored under its own key;
- no two clinicians, organisations or departments share an id (their primary keys);
- no two clinicians share a name, no two organisations a postcode, no two departments a name: the schema has no such unique index, but the get-or-create methods are the only writers of these tables and, run one at a time, add a row only when its key is absent (concurrent calls are under "Left out");
- every generated id is below the counter;
- every appointment's foreign keys resolve.

Every write method keeps this invariant. `DateTimeOffset.Now` is a parameter `now` of each operation that reads the clock. The services' exceptions become `Fail`/`Failure` values of the `ServiceError` type; the converter's two `JsonException`s become `Failure` values of `JsonError`.

Three points of the source's behaviour shape the model:

- `UpdateAppointmentAsync` looks up the appointment (AppointmentService.cs line 77) before the patient (line 83), so a request missing both fails with `AppointmentNotFound`.
- The NHS Number validator runs with FluentValidation's default cascade, so all three rules report their failures rather than stopping at the first.
- Patient deletion removes the patient's appointments, following the cascading foreign key in the initial migration.

## Model

| member | source | states |
|---|---|---|
| NhsNumberValidator.WeightedSum | PANDA.Api/Validators/NhsNumberValidator.cs:23-29 | the loop's running total after n steps; for an all-digit string it lies in 0..90n |
| NhsNumberValidator.BeValidNhsNumber | PANDA.Api/Validators/NhsNumberValidator.cs:16-44 | the loop with invariant `total == WeightedSum(s, i)`; accepts exactly the strings of ten digits meeting the check-digit rule, equivalently those whose ten-digit weighted sum is a multiple of 11 |
| NhsNumberValidator.IsValidNhsNumber | PANDA.Api/Validators/NhsNumberValidator.cs:31-43 | the check-digit rule as written: 11 minus the nine-digit sum modulo 11, with 11 read as 0 and 10 rejected, equals the tenth digit; a valid number has ten digits and a sum not 1 modulo 11 |
| NhsNumberValidator.ValidIffModElevenZero | PANDA.Api/Validators/NhsNumberValidator.cs:31-43 | the source's check-digit cases (11 means 0, 10 means invalid) are the same as the Modulus 11 property of all ten digits |
| NhsNumberValidator.CheckDigitRule | PANDA.Api/Validators/NhsNumberValidator.cs:31-43 | for any running total and digit, the digit is the check digit exactly when total plus digit is divisible by 11 |
| NhsNumberValidator.Validate | PANDA.Api/Validators/NhsNumberValidator.cs:9-13 | the rule chain reports NotEmpty iff the input is blank, Length iff it is not 10 long, the Must rule iff the checksum fails, and accepts iff the number is valid |
| NhsNumberValidator.WeightedSumOfPrefix | PANDA.Api/Validators/NhsNumberValidator.cs:26-29 | the total depends only on the first n characters |
| NhsNumberValidator.EmptyIsInvalid | PANDA.Api/Validators/NhsNumberValidator.cs:9-13 | the empty string fails all three rules, in rule order |
| NhsNumberValidator.WrongLengthIsInvalid | PANDA.Api/Validators/NhsNumberValidator.cs:11-21 | any length other than 10 is invalid and reported by the Length rule |
| NhsNumberValidator.NonDigitIsInvalid | PANDA.Api/Validators/NhsNumberValidator.cs:18-21 | a non-digit character anywhere makes the number invalid |
| NhsNumberValidator.CheckValueTenIsInvalid | PANDA.Api/Validators/NhsNumberValidator.cs:38-41 | a check value of 10 rejects the number whatever its last digit |
| NhsNumberValidator.CheckValueElevenMeansZero | PANDA.Api/Validators/NhsNumberValidator.cs:34-43 | a check value of 11 accepts exactly the last digit 0 |
| NhsNumberValidator.AtMostOneCompletion | PANDA.Api/Validators/NhsNumberValidator.cs:26-43 | two valid numbers with the same first nine digits are equal |
| NhsNumberValidator.CompletionExists | PANDA.Api/Validators/NhsNumberValidator.cs:26-43 | every nine-digit prefix whose check value is not 10 has a valid completion |
| NhsNumberValidator.TestVectorValid | PANDA.Api.Tests/Validators/NhsNumberValidatorTests.cs:16-27 | 1373645350 is valid |
| NhsNumberValidator.TestVectorCheckValueTen | PANDA.Api.Tests/Validators/NhsNumberValidatorTests.cs:29-40 | 1234567899 is invalid (check value 10) |
| NhsNumberValidator.TestVectorsWrongLength | PANDA.Api.Tests/Validators/NhsNumberValidatorTests.cs:42-56 | the 9- and 11-digit numbers are invalid |
| Text.ToUpper | PANDA.Api/Converters/AppointmentStatusConverter.cs:20 | ordinal case folding: a lower-case ASCII letter maps to its capital, every other character to itself |
| Text.EqualsIgnoreCase | PANDA.Api/Converters/AppointmentStatusConverter.cs:20 | `string.Equals` with `OrdinalIgnoreCase`: equal strings have equal lengths and agree on the first character after folding |
| Text.IsBlank | PANDA.Api/Validators/AppointmentDtoValidator.cs:13 | `string.IsNullOrWhiteSpace` on a present string, what NotEmpty rejects: every character is white space, so none is a digit or a letter |
| Text.EqualsIgnoreCaseAt | PANDA.Api/Converters/AppointmentStatusConverter.cs:20 | `OrdinalIgnoreCase` equality holds iff the lengths agree and the characters agree position by position after folding |
| Text.EqualsIgnoreCaseReflexive | PANDA.Api/Converters/AppointmentStatusConverter.cs:20 | every string equals itself ignoring case |
| MappingProfile.DetermineStatus | PANDA.Api/Mappings/MappingProfile.cs:30-36 | the priority order: Cancelled iff cancelled; Attended iff attended and not cancelled; Active iff neither and in the future; Missed iff neither and not in the future |
| MappingProfile.ToDto | PANDA.Api/Mappings/MappingProfile.cs:12-16 | the forward map copies id, time, duration and patient; takes the names and postcode of the referenced rows; and its status is the derived status at `now` |
| MappingProfile.MapOnto | PANDA.Api/Mappings/MappingProfile.cs:17-25 | the reverse map sets IsCancelled and IsAttended from the status, never both; copies id, time, duration and patient; and keeps the target's foreign keys |
| MappingProfile.StatusRoundTrip | PANDA.Api/Mappings/MappingProfile.cs:17-36 | status to flags and back: Cancelled and Attended always survive; Active survives iff the time is in the future; Missed survives iff it is not |
| MappingProfile.FlagsRoundTrip | PANDA.Api/Mappings/MappingProfile.cs:12-36 | flags (not both set) to status and back give the same flags |
| Models.IsMissedAt | PANDA.Api/Models/Clinician.cs:18 | the filter's condition: not attended, not cancelled and strictly before `now` |
| MappingProfile.MissedFilterAgreesWithStatus | PANDA.Api/Models/Department.cs:18 | a filtered appointment reports Missed; an unflagged one reports Missed yet fails the filter exactly when its time equals `now` |
| Models.FilterMissed | PANDA.Api/Models/Clinician.cs:14-20 | the `Where` filter keeps exactly the unattended, uncancelled, past appointments, in order and with multiplicity |
| Models.MissedAppointments | PANDA.Api/Models/Department.cs:14-20 | null for a null collection; otherwise the ordered sub-list of exactly the missed appointments |
| Models.MissedAppointmentsComplete | PANDA.Api/Models/Clinician.cs:18 | every missed appointment of the collection is in the result |
| AppointmentStatusConverter.StatusValues | PANDA.Api/Converters/AppointmentStatusConverter.cs:18 | `Enum.GetValues<AppointmentStatus>()`: the four values, each once |
| AppointmentStatusConverter.Ordinal | PANDA.Api/Converters/AppointmentStatusConverter.cs:18 | every status occurs in the `Enum.GetValues` sequence, at its assumed position |
| AppointmentStatusConverter.Name | PANDA.Api/Converters/AppointmentStatusConverter.cs:31 | `ToString()` gives the status's name, a capitalised word of at least six letters |
| AppointmentStatusConverter.FirstMatchAnyOrder | PANDA.Api/Converters/AppointmentStatusConverter.cs:18-24 | in whatever order the values are enumerated, a string matching a name ignoring case finds exactly that status |
| AppointmentStatusConverter.FirstMatch | PANDA.Api/Converters/AppointmentStatusConverter.cs:18-24 | the loop returns a candidate whose name matches ignoring case, or no candidate matches |
| AppointmentStatusConverter.Read | PANDA.Api/Converters/AppointmentStatusConverter.cs:9-27 | null is refused; a success names the value ignoring case; a failure means no status name matches |
| AppointmentStatusConverter.Write | PANDA.Api/Converters/AppointmentStatusConverter.cs:29-32 | writes exactly one string token, the status's name |
| AppointmentStatusConverter.NamesDistinctIgnoringCase | PANDA.Api/Converters/AppointmentStatusConverter.cs:18-24 | no two status names are equal ignoring case, so the first match is the only one |
| AppointmentStatusConverter.ReadWriteRoundTrip | PANDA.Api/Converters/AppointmentStatusConverter.cs:9-32 | reading what Write produced gives back the status |
| AppointmentStatusConverter.WriteReadCanonical | PANDA.Api/Converters/AppointmentStatusConverter.cs:18-24 | a string that reads as a status equals that status's name ignoring case, and matches no other |
| AppointmentStatusConverter.ReadIgnoresCase | PANDA.Api/Converters/AppointmentStatusConverter.cs:18-24 | any spelling equal to a name ignoring case reads as that status |
| AppointmentStatusConverter.ReadExampleLowerCase | PANDA.Api/Converters/AppointmentStatusConverter.cs:20 | "cancelled" reads as Cancelled |
| AppointmentStatusConverter.ReadExampleUpperCase | PANDA.Api/Converters/AppointmentStatusConverter.cs:20 | "MISSED" reads as Missed |
| AppointmentStatusConverter.ReadExamplesRefused | PANDA.Api/Converters/AppointmentStatusConverter.cs:13-26 | "Pending" and JSON null are refused |
| AppointmentDtoValidator.IsOutwardCode | PANDA.Api/Validators/AppointmentDtoValidator.cs:18 | the two outward alternatives `[A-Z]{1,2}[0-9][A-Z0-9]?` and `(BF)?[0-9]{1,2}`, each one to four characters |
| AppointmentDtoValidator.IsPostcodeBody | PANDA.Api/Validators/AppointmentDtoValidator.cs:18 | the pattern between the anchors: outward code, optional white space, inward code; four to eight characters |
| AppointmentDtoValidator.MatchesPostcode | PANDA.Api/Validators/AppointmentDtoValidator.cs:18 | the anchored match, where `$` also admits one final newline; four to nine characters |
| AppointmentDtoValidator.PatientRule | PANDA.Api/Validators/AppointmentDtoValidator.cs:10-14 | null gives only NotNull; blank gives only NotEmpty; accepted iff present and a valid NHS number; otherwise neither NotNull nor NotEmpty is reported and the failures are exactly the NHS Number validator's, as many as it reports |
| AppointmentDtoValidator.WrappedMembership | PANDA.Api/Validators/AppointmentDtoValidator.cs:14 | wrapping the validator's failures position by position reports exactly those failures |
| AppointmentDtoValidator.PostcodeRule | PANDA.Api/Validators/AppointmentDtoValidator.cs:16-19 | NotEmpty fails iff null or blank; the regex fails iff present and not matching; accepted iff present, non-blank and matching |
| AppointmentDtoValidator.Validate | PANDA.Api/Validators/AppointmentDtoValidator.cs:10-19 | a request is accepted iff both rule chains accept |
| AppointmentDtoValidator.EmptyPatientStopsChain | PANDA.Api/Validators/AppointmentDtoValidator.cs:10-14 | an empty Patient reports NotEmpty and none of the NHS validator's failures |
| AppointmentDtoValidator.PostcodeBodyShape | PANDA.Api/Validators/AppointmentDtoValidator.cs:18 | a matched postcode body has 4 to 8 characters and ends with a digit and two capitals |
| AppointmentDtoValidator.AcceptedPostcodeShape | PANDA.Api/Validators/AppointmentDtoValidator.cs:18 | an accepted postcode, less the newline `$` admits at the end, is a postcode body |
| AppointmentDtoValidator.OutwardHasNoLowerCase | PANDA.Api/Validators/AppointmentDtoValidator.cs:18 | an outward code holds no lower-case letter |
| AppointmentDtoValidator.AcceptedPostcodeHasNoLowerCase | PANDA.Api/Validators/AppointmentDtoValidator.cs:18 | the regex is case-sensitive: no accepted postcode holds a lower-case letter |
| AppointmentDtoValidator.PostcodeExamples | PANDA.Api/Validators/AppointmentDtoValidator.cs:18 | "AA1 1AA" (with or without a final newline) and "BF1 1AA" match; "aa1 1aa" and "" do not |
| Data.FirstIndex | PANDA.Api/Services/AppointmentService.cs:112 | `FirstOrDefault`: the index of the first row satisfying the predicate, or none if no row does |
| Data.First | PANDA.Api/Services/AppointmentService.cs:124 | the row found is in the table and satisfies the predicate |
| Data.FirstIndexExtend | PANDA.Api/Services/AppointmentService.cs:110-120 | appending rows does not change which row is found first once one exists |
| Data.FirstIndexAppend | PANDA.Api/Services/AppointmentService.cs:113-117 | a row appended to a table with no match is the one found |
| Data.AddClinicianKeepsValid | PANDA.Api/Services/AppointmentService.cs:115-117 | adding a clinician with the next id and a name not yet present keeps the store valid, ids and names still distinct |
| Data.AddOrganisationKeepsValid | PANDA.Api/Services/AppointmentService.cs:127-129 | adding an organisation with the next id and a postcode not yet present keeps the store valid, ids and postcodes still distinct |
| Data.AddDepartmentKeepsValid | PANDA.Api/Services/AppointmentService.cs:139-141 | adding a department with the next id and a name not yet present keeps the store valid, ids and names still distinct |
| Data.AppendClinicianKeepsUnique | PANDA.Api/Services/AppointmentService.cs:110-119 | a clinician with a fresh id and an absent name keeps clinician ids and names distinct |
| Data.AppendOrganisationKeepsUnique | PANDA.Api/Services/AppointmentService.cs:122-131 | an organisation with a fresh id and an absent postcode keeps organisation ids and postcodes distinct |
| Data.AppendDepartmentKeepsUnique | PANDA.Api/Services/AppointmentService.cs:134-143 | a department with a fresh id and an absent name keeps department ids and names distinct |
| Data.LookupsFindTheOnlyRow | PANDA.Api/Migrations/20250203134738_InitialCreate.cs:21-50 | in a valid store, `FirstOrDefault` by id or by name/postcode returns the one row carrying that key |
| Data.PutAppointmentKeepsValid | PANDA.Api/Services/AppointmentService.cs:71-72 | storing an appointment whose foreign keys resolve keeps the store valid |
| Data.PutPatientKeepsValid | PANDA.Api/Services/PatientService.cs:44-45 | storing a patient under its NHS number keeps the store valid |
| Data.CascadeDelete | PANDA.Api/Migrations/20250203134738_InitialCreate.cs:125-130 | exactly the appointments of other patients remain, unchanged |
| Data.RemovePatientKeepsValid | PANDA.Api/Migrations/20250203134738_InitialCreate.cs:125-130 | deleting a patient with its appointments keeps the store valid |
| Data.ValidTables | PANDA.Api/Data/PandaContext.cs:23-41 | patients and appointments stored under their own keys; clinician, organisation and department ids pairwise distinct, as are clinician names, organisation postcodes and department names; generated ids below the counter; every appointment's patient, clinician, organisation and department keys resolve |
| Data.PandaContext.Valid | PANDA.Api/Migrations/20250203134738_InitialCreate.cs:125-130 | the store's tables satisfy `ValidTables`, the foreign-key constraints of the schema |
| Data.PandaContext.constructor | PANDA.Api/Data/PandaContext.cs:13-17 | the five tables start empty and valid |
| AppointmentService.ValidateAppointmentStatus | PANDA.Api/Services/AppointmentService.cs:146-153 | fails, with InvalidAppointmentStatus, exactly for Missed in the future or Active not in the future; Cancelled and Attended always pass |
| AppointmentService.ValidationMatchesRoundTrip | PANDA.Api/Services/AppointmentService.cs:146-153 | the guard passes iff the stored flags report the requested status at the same instant |
| AppointmentService.Bind | PANDA.Api/Services/AppointmentService.cs:66-69 | sets the three foreign keys to the resolved rows' ids and changes nothing else |
| AppointmentService.GetOrCreated | PANDA.Api/Services/AppointmentService.cs:110-120 | the effect of one get-or-create on a table: afterwards a row with the key exists; the table is unchanged if one existed, and otherwise grew by exactly that row |
| AppointmentService.GetOrCreateIdempotent | PANDA.Api/Services/AppointmentService.cs:110-144 | two resolutions with one key: the second adds nothing and returns the same row |
| AppointmentService.GetOrCreateClinician | PANDA.Api/Services/AppointmentService.cs:110-120 | returns the first clinician of that name; the table is unchanged if one existed, otherwise it grew by exactly a fresh-id row; other tables are unchanged |
| AppointmentService.GetOrCreateOrganisation | PANDA.Api/Services/AppointmentService.cs:122-132 | the same, keyed by postcode; a new organisation has no code and no name |
| AppointmentService.GetOrCreateDepartment | PANDA.Api/Services/AppointmentService.cs:134-144 | the same, keyed by department name |
| AppointmentService.Stored | PANDA.Api/Services/AppointmentService.cs:65-69 | the row written: the request's id, time, duration and patient; flags from its status; foreign keys equal to the ids of the first clinician with the name, organisation with the postcode and department with the name; these resolve whenever the patient exists |
| AppointmentService.ResolveReferences | PANDA.Api/Services/AppointmentService.cs:59-61 | the three get-or-creates in order; patients and appointments untouched |
| AppointmentService.Put | PANDA.Api/Services/AppointmentService.cs:65-72 | stores the mapped, bound row under the request's id; nothing else changes |
| AppointmentService.AddAppointment | PANDA.Api/Services/AppointmentService.cs:51-73 | the error order: PatientNotFound with nothing written, then the resolved rows are kept, then InvalidAppointmentStatus, then a duplicate id; otherwise the new row is stored under the request's id |
| AppointmentService.UpdateAppointment | PANDA.Api/Services/AppointmentService.cs:75-108 | the error order: AppointmentNotFound, then PatientNotFound, both with nothing written; then references resolved; then InvalidAppointmentStatus; then CannotUpdateCancelledAppointment; otherwise the row is overwritten, and a cancelled row stays cancelled |
| AppointmentService.CancelledIsAbsorbing | PANDA.Api/Services/AppointmentService.cs:95-100 | an update that passes the guard on a cancelled row leaves it reporting Cancelled at any time |
| AppointmentService.AppointmentView | PANDA.Api/Services/AppointmentService.cs:28-33 | a stored row, with its included references, maps to a view with its id, time, duration and patient, the name of the clinician, the postcode of the organisation and the name of the department its keys point to, and its derived status |
| AppointmentService.GetAppointmentById | PANDA.Api/Services/AppointmentService.cs:36-49 | null iff no appointment has the id; otherwise the view of that appointment |
| AppointmentService.GetAppointmentsByNhsNumber | PANDA.Api/Services/AppointmentService.cs:24-34 | exactly the views of the stored appointments whose patient is the key: every element is the view of such an appointment, and each such appointment's view is an element |
| PatientService.GetPatients | PANDA.Api/Services/PatientService.cs:23-27 | every stored patient is returned, nothing else, and as many patients as keys |
| PatientService.CardinalityOfValues | PANDA.Api/Services/PatientService.cs:23-27 | rows stored under their own keys are as many as the keys |
| PatientService.GetPatientById | PANDA.Api/Services/PatientService.cs:29-38 | null iff no patient has the NHS number; otherwise that patient |
| PatientService.PatientExists | PANDA.Api/Services/PatientService.cs:78-81 | true iff the lookup by id finds a patient, iff some listed patient has that number |
| PatientService.AddPatient | PANDA.Api/Services/PatientService.cs:40-48 | stores the patient under its NHS number and returns the input; a stored key is refused and changes nothing |
| PatientService.UpdatePatient | PANDA.Api/Services/PatientService.cs:50-62 | an unknown key fails with PatientNotFound and changes nothing; a known one has its record replaced, other patients untouched |
| PatientService.DeletePatient | PANDA.Api/Services/PatientService.cs:64-76 | false and no change for an unknown key; otherwise true, exactly that key removed, its appointments cascaded away |

## Left out

- Character classes are ASCII. `char.IsDigit`, `\s` and `OrdinalIgnoreCase` also accept other Unicode digits, spaces and case pairs. The model uses the ASCII digits, the six ASCII white-space characters and ASCII letter folding. Lengths count Unicode scalar values, while `Length(10)` counts UTF-16 code units: nine digits plus one character outside the Basic Multilingual Plane is 11 long in C# and draws the Length failure, but is 10 long here, so `NhsNumberValidator.Validate` omits `LengthFailure` for it; validity is the same either way.
- Time is one integer instant per operation. `DateTimeOffset` offsets are not modelled. Each separate read of `DateTimeOffset.Now` in the source is treated as the same instant.
- The race between concurrent first-time get-or-create calls for one key is not modelled. Each operation is sequential, and EF transactions and `SaveChangesAsync` batching are not modelled either.
- `async`/`await`, AutoMapper's reflection, the localiser's message strings, logging and the HTTP controllers are not part of this model.
- Queries return sets, so the result order of `ToListAsync` is not modelled. The order of the `MissedAppointments` filter is kept.
- AppointmentService.AddAppointment: the model assumes the request supplies the appointment's id. `Appointment.Id` is generated on add, so EF Core replaces an empty Guid from a request without an id by a fresh one at `AddAsync`; the model stores the row under the request's id as given, so two id-less adds collide there with `DuplicateKey` where the source stores both.
- Inserting a duplicate primary key is modelled as a `DuplicateKey` failure that writes nothing. In the source, EF Core raises an exception when saving.
- `Department.Name` nullability and navigation-property loading are not modelled. References are foreign keys, resolved through `Data.First`.
- A null input to `BeValidNhsNumber` is not modelled. The rule chain never passes it one.
- `AppointmentStatusConverter.Write` appends the name to a token list that stands for `Utf8JsonWriter`. JSON escaping and framing are out of scope.
- AppointmentStatusConverter.Ordinal: the enum's declaration is not part of this model. The order Cancelled, Attended, Active, Missed of `Enum.GetValues` is assumed; `FirstMatchAnyOrder` shows that `Read`'s result does not depend on it.
- C# integer overflow is not modelled. The weighted sum is at most 810, so none occurs.
