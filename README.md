# PetAdoption core, modelled in Dafny

This project models the core of the PetAdoption system. The system has two services, a pet service and a user service. They share a database-backed transactional outbox and a RabbitMQ broker.

What the model covers:

- **Pet service domain.**
  - The `Pet` aggregate (module `Pets`): Available, then Reserved, then Adopted, or back to Available when a reservation is cancelled. The pet keeps a list of pending domain events and a version counter.
  - The administrator-managed `PetType` entity (module `PetTypes`).
  - The `PetType` value object (module `PetTypeValues`): one of six species, held in its canonical spelling.
  - The `PetName` value object (module `PetNames`).
  - The domain error codes (module `PetErrors`).
- **User service domain.**
  - The `User` aggregate (module `Users`): Active or Suspended, with the role User or Admin. Every operation is guarded and raises domain events.
  - The value objects (module `UserValueObjects`): Email, FullName, PhoneNumber, Password, UserId and UserPreferences.
- **Transactional outbox.**
  - The pet-service `OutboxEvent` record and its MongoDB store (module `PetOutbox`).
  - The user-service record and its store (module `UserOutbox`).
  - The Find / Sort / Limit query shape that both stores use (module `OutboxQueries`).
  - The user repository (module `UserPersistence`). Its `SaveAsync` writes the user and then queues one outbox record per pending event.
  - The two background dispatchers (modules `PetDispatch` and `UserDispatch`). Each runs one tick of its batch loop, or a bounded run of ticks.
- **Broker topology.**
  - The part of an AMQP 0-9-1 broker, as RabbitMQ implements it, that declaring, binding and deleting use (module `Amqp`).
  - The topology configuration and the builder that compiles it into an ordered list of actions (module `Topology`).
  - Each service's `SetupAsync` (modules `PetTopology` and `UserTopology`).
  - The user service's retrying `RabbitMqTopologySetup.StartAsync` (module `UserTopology`).
- **Two pure mappings.**
  - Domain error code to HTTP status (module `ErrorMapping`).
  - The pets list, each pet joined with the name of its pet type (module `PetQueries`).
- **Shared helpers.**
  - `Base`: Option/Result wrappers, times and ids.
  - `Text`: the .NET string primitives the validators use.

How the model is built:

- Objects whose fields the source updates in place are classes: the aggregates, the pet outbox record, the stores, the dispatchers, the topology builders and the setup. Each such class comes with a pure snapshot datatype and pure step functions. Every method is proved to produce exactly what its step function says, and the properties are lemmas about those functions.
- The environment is given as parameters:
  - each reading of the clock (`DateTime.UtcNow`) and each fresh id (`Guid.NewGuid`);
  - the result of each publish and each database write;
  - the decoding of stored events (`Type.GetType` plus `JsonSerializer`);
  - the JSON text of serialised events;
  - the outcome of each connection attempt;
  - the batch position at which cancellation is first seen.

Where the code differs from the stated design, the model follows the code:

- The user store's `GetUnprocessedAsync` has no retry-count filter. Only the pet store's `GetPendingEvents` drops records with five or more failed attempts. See Findings.
- In both dispatchers, a failure to record a failed attempt is an exception that leaves the batch loop. The rest of that batch waits for the next tick, so one record's failure can hold back the records after it (`PetDispatch.AbortedStays`, `UserDispatch.AbortedStays`).
- A pet-service record can end a tick both marked processed and charged with a failed attempt. This happens when the publish goes through but the following `Update` throws (`PetDispatch.MarkedThenCharged`). A user-service record can end published and marked failed in the same way (`UserDispatch.PublishedThenFailed`). Delivery is at-least-once.
- A pet-service record whose event does not decode is left exactly as stored (`PetDispatch.FateSpec`). It is not forwarded and not charged, so it stays pending.
- `UserRepository.SaveAsync` is not atomic. A failing write leaves the earlier writes in place and the user's events uncleared (`UserPersistence.SaveSpec`).
- On repeated pet-type ids, the pets list query throws, as `ToDictionary` does. The model returns that error rather than excluding such input (`PetQueries.ToDictionarySpec`).
- The user service's recovery from a 406 refusal runs on a channel the refusal has already closed. It therefore never repairs the entity. See Findings.

## Model

| member | source | states |
|---|---|---|
| PetErrors.FromCode | src/Services/PetService/PetAdoption.PetService.Domain/Exceptions/PetDomainErrorCode.cs:14-53 | a string read back as a code is that code's snake_case constant |
| PetErrors.CodeRoundTrip | src/Services/PetService/PetAdoption.PetService.Domain/Exceptions/PetDomainErrorCode.cs:14-53 | every code reads back as itself |
| PetErrors.CodeInjective | src/Services/PetService/PetAdoption.PetService.Domain/Exceptions/PetDomainErrorCode.cs:14-53 | two codes have the same string exactly when they are the same code |
| Pets.New | src/Services/PetService/PetAdoption.PetService.Domain/Pet.cs:21-33 | an empty id is rejected first, then an empty pet type id; otherwise the pet is Available with version 0 and no pending events |
| Pets.CreateStep | src/Services/PetService/PetAdoption.PetService.Domain/Pet.cs:38-41 | a name PetName rejects gives invalid_pet_name; the pet is created exactly when the name is valid and both ids are non-empty, and is then Available, version 0, no events, with the trimmed name and the drawn id |
| Pets.Pet.Create | src/Services/PetService/PetAdoption.PetService.Domain/Pet.cs:38-41 | the object built (a fresh one) has exactly the state CreateStep gives, or the same failure |
| Pets.ReserveStep | src/Services/PetService/PetAdoption.PetService.Domain/Pet.cs:44-61 | succeeds exactly from Available, moving to Reserved and appending one PetReservedEvent with the pet's id and name and nothing else changed; otherwise fails with pet_not_available |
| Pets.AdoptStep | src/Services/PetService/PetAdoption.PetService.Domain/Pet.cs:63-80 | succeeds exactly from Reserved, moving to Adopted and appending one PetAdoptedEvent, nothing else changed; otherwise fails with pet_not_reserved |
| Pets.CancelReservationStep | src/Services/PetService/PetAdoption.PetService.Domain/Pet.cs:82-99 | succeeds exactly from Reserved, moving back to Available and appending one PetReservationCancelledEvent, nothing else changed; otherwise fails with pet_not_reserved |
| Pets.AdoptedIsTerminal | src/Services/PetService/PetAdoption.PetService.Domain/Pet.cs:46-84 | from Adopted every transition fails |
| Pets.EventCountMatchesTransitions | src/Services/PetService/PetAdoption.PetService.Domain/Pet.cs:59-104 | after any sequence of calls the pending events number the successful transitions since the last clear (plus those already pending when nothing cleared them) |
| Pets.VersionCountsIncrements | src/Services/PetService/PetAdoption.PetService.Domain/Pet.cs:106 | the version rises by exactly the number of IncrementVersion calls; no transition touches it |
| Pets.RunKeepsEventsConsistent | src/Services/PetService/PetAdoption.PetService.Domain/Pet.cs:9-98 | every pending event carries the pet's id and name, the newest names the current status, and id, name and pet type never change |
| Pets.Pet.Reserve | src/Services/PetService/PetAdoption.PetService.Domain/Pet.cs:44-61 | the object's new state and the outcome are those of ReserveStep; a failure leaves the object as it was |
| Pets.Pet.Adopt | src/Services/PetService/PetAdoption.PetService.Domain/Pet.cs:63-80 | the new state and the outcome are those of AdoptStep |
| Pets.Pet.CancelReservation | src/Services/PetService/PetAdoption.PetService.Domain/Pet.cs:82-99 | the new state and the outcome are those of CancelReservationStep |
| Pets.Pet.AddDomainEvent | src/Services/PetService/PetAdoption.PetService.Domain/Pet.cs:101-102 | appends the event and changes nothing else |
| Pets.Pet.ClearDomainEvents | src/Services/PetService/PetAdoption.PetService.Domain/Pet.cs:104 | empties the pending events and changes nothing else |
| Pets.Pet.IncrementVersion | src/Services/PetService/PetAdoption.PetService.Domain/Pet.cs:106 | adds one to the version and changes nothing else |
| Pets.Pet.Init | src/Services/PetService/PetAdoption.PetService.Domain/Pet.cs:17-18 | the object holds exactly the given (stored) state |
| PetTypes.ValidateName | src/Services/PetService/PetAdoption.PetService.Domain/PetType.cs:68-139 | the name passes exactly when it is non-blank with a trimmed length in 2..100 UTF-16 code units, and then yields the trimmed name; a blank name and a bad length are told apart |
| PetTypes.CreateStep | src/Services/PetService/PetAdoption.PetService.Domain/PetType.cs:43-119 | creation succeeds exactly when code and name are non-blank, the normalised code has a UTF-16 length of 2..50 and the trimmed name 2..100; the result holds the trimmed lower-case code, the trimmed name, is active, created now and never updated |
| PetTypes.CreateRejectionOrder | src/Services/PetService/PetAdoption.PetService.Domain/PetType.cs:57-104 | a blank code is reported whatever the name, then a blank name, then the code's length before the name's |
| PetTypes.CreateNormalises | src/Services/PetService/PetAdoption.PetService.Domain/PetType.cs:79-118 | the stored code is lower case and trimmed, the stored name trimmed, and creating again from the stored values gives the same pet type |
| PetTypes.UpdateNameStep | src/Services/PetService/PetAdoption.PetService.Domain/PetType.cs:124-143 | succeeds exactly when the shared name rule does, storing the trimmed name and the update time and nothing else |
| PetTypes.DeactivateStep | src/Services/PetService/PetAdoption.PetService.Domain/PetType.cs:148-159 | succeeds exactly when active, leaving it inactive and updated now; otherwise invalid_operation |
| PetTypes.ActivateStep | src/Services/PetService/PetAdoption.PetService.Domain/PetType.cs:164-175 | succeeds exactly when inactive, leaving it active and updated now; otherwise invalid_operation |
| PetTypes.DeactivateActivateRoundTrip | src/Services/PetService/PetAdoption.PetService.Domain/PetType.cs:148-175 | deactivate then activate restores the pet type apart from UpdatedAt; deactivating twice in a row fails |
| PetTypes.IdentityFieldsFixed | src/Services/PetService/PetAdoption.PetService.Domain/PetType.cs:124-175 | no operation changes Id, Code or CreatedAt; UpdateName keeps IsActive, the toggles keep Name |
| PetTypes.PetType.Init | src/Services/PetService/PetAdoption.PetService.Domain/PetType.cs:43-50 | the new entity is active, created now, with UpdatedAt unset |
| PetTypes.PetType.Create | src/Services/PetService/PetAdoption.PetService.Domain/PetType.cs:55-119 | the object built (a fresh one) has exactly the state CreateStep gives, or the same rejection |
| PetTypes.PetType.UpdateName | src/Services/PetService/PetAdoption.PetService.Domain/PetType.cs:124-143 | the new state and outcome are those of UpdateNameStep; a rejection changes nothing |
| PetTypes.PetType.Deactivate | src/Services/PetService/PetAdoption.PetService.Domain/PetType.cs:148-159 | the new state and outcome are those of DeactivateStep |
| PetTypes.PetType.Activate | src/Services/PetService/PetAdoption.PetService.Domain/PetType.cs:164-175 | the new state and outcome are those of ActivateStep |
| PetTypeValues.FirstMatch | src/Services/PetService/PetAdoption.PetService.Domain/ValueObjects/PetType.cs:42-43 | a match found is one of the valid types (from the search start on) equal to the input ignoring case; none is found exactly when no valid type matches |
| PetTypeValues.New | src/Services/PetService/PetAdoption.PetService.Domain/ValueObjects/PetType.cs:25-81 | blank input gives EmptyOrWhitespace; otherwise it is accepted exactly when the trimmed input equals a valid type ignoring case, the value is then that canonical spelling, and a rejection is InvalidType |
| PetTypeValues.ValidTypesDistinctIgnoringCase | src/Services/PetService/PetAdoption.PetService.Domain/ValueObjects/PetType.cs:11-14 | no two of the six spellings are equal ignoring case |
| PetTypeValues.NewIdempotent | src/Services/PetService/PetAdoption.PetService.Domain/ValueObjects/PetType.cs:39-75 | building a value from a value's own ToString gives the same value |
| PetTypeValues.CaseAndPaddingIgnored | src/Services/PetService/PetAdoption.PetService.Domain/ValueObjects/PetType.cs:39-43 | " dOG " and "Dog" both give the value "Dog" |
| PetTypeValues.EqualsConsistentWithHash | src/Services/PetService/PetAdoption.PetService.Domain/ValueObjects/PetType.cs:63-73 | equality is case-insensitive and symmetric, never holds against null, and equal values hash equally |
| PetTypeValues.EqualsOnCanonicalValues | src/Services/PetService/PetAdoption.PetService.Domain/ValueObjects/PetType.cs:59-68 | on constructed values, case-insensitive equality coincides with equality of the stored values |
| PetTypeValues.EqNullAware | src/Services/PetService/PetAdoption.PetService.Domain/ValueObjects/PetType.cs:83-86 | == is null-aware: a value never equals null, two nulls are equal, and otherwise it is Equals |
| PetNames.New | PetAdoption.PetService/Domain/ValueObjects/PetName.cs:15-79 | accepted exactly when non-blank with a trimmed length of at most 100 UTF-16 code units, the value being the trimmed input; blank gives EmptyOrWhitespace and too long gives TooLong, so the TooShort branch is never taken |
| PetNames.NewIdempotent | PetAdoption.PetService/Domain/ValueObjects/PetName.cs:29-73 | a valid name's own value is accepted again unchanged |
| PetNames.EqualsIsValueEquality | PetAdoption.PetService/Domain/ValueObjects/PetName.cs:62-84 | equality is exact value equality, equal names hash equally, and == is null-aware |
| PetNames.EqualsIsCaseSensitive | PetAdoption.PetService/Domain/ValueObjects/PetName.cs:66 | "Rex" and "rex" are both valid and are different names |
| PetTypeValues.LowerValidTypes | src/Services/PetService/PetAdoption.PetService.Domain/ValueObjects/PetType.cs:11-14 | the six spellings lower-case to dog, cat, rabbit, bird, fish and hamster |
| PetTypeValues.ValidTypeTrimmed | src/Services/PetService/PetAdoption.PetService.Domain/ValueObjects/PetType.cs:11-14 | each of the six spellings is unchanged by Trim |
| PetTypeValues.FirstMatchFindsCanonical | src/Services/PetService/PetAdoption.PetService.Domain/ValueObjects/PetType.cs:42-43 | searching for one of the six spellings finds that spelling itself |
| PetNames.LengthCountsCodeUnits | PetAdoption.PetService/Domain/ValueObjects/PetName.cs:44 | the limit counts UTF-16 code units: 51 characters outside the Basic Multilingual Plane are too long, while 100 letters are accepted |
| UserValueObjects.EmailFrom | src/Services/UserService/PetAdoption.UserService.Domain/ValueObjects/Email.cs:9-24 | blank input is refused first; otherwise accepted exactly when the trimmed lower-cased text contains '@' and '.' and has at most 255 UTF-16 code units, which is then the value; a format failure is reported before the length |
| UserValueObjects.NormalizeEmailIdempotent | src/Services/UserService/PetAdoption.UserService.Domain/ValueObjects/Email.cs:14 | normalising a normalised address changes nothing |
| UserValueObjects.EmailFromIdempotent | src/Services/UserService/PetAdoption.UserService.Domain/ValueObjects/Email.cs:14-26 | From accepts its own output and returns the same email |
| UserValueObjects.EmailIgnoresCaseAndPadding | src/Services/UserService/PetAdoption.UserService.Domain/ValueObjects/Email.cs:14 | inputs whose trimmed texts agree ignoring case give the same result, success or failure |
| UserValueObjects.EmailPaddingAndCase | src/Services/UserService/PetAdoption.UserService.Domain/ValueObjects/Email.cs:14 | adding surrounding white space and lower-casing does not change the result |
| UserValueObjects.FullNameFrom | src/Services/UserService/PetAdoption.UserService.Domain/ValueObjects/FullName.cs:9-23 | accepted exactly when non-blank with a trimmed length in 2..100 UTF-16 code units, the value being the trimmed input; each rejection has its own message |
| UserValueObjects.FullNameFromIdempotent | src/Services/UserService/PetAdoption.UserService.Domain/ValueObjects/FullName.cs:14-22 | From accepts its own output unchanged and ignores surrounding white space |
| UserValueObjects.KeepPhoneChars | src/Services/UserService/PetAdoption.UserService.Domain/ValueObjects/PhoneNumber.cs:17 | the result is no longer than the input and holds only digits and '+' |
| UserValueObjects.KeepPhoneCharsIgnoresTrim | src/Services/UserService/PetAdoption.UserService.Domain/ValueObjects/PhoneNumber.cs:14-17 | filtering the trimmed text gives what filtering the untrimmed text gives |
| UserValueObjects.PhoneFromOptional | src/Services/UserService/PetAdoption.UserService.Domain/ValueObjects/PhoneNumber.cs:9-23 | null or blank gives no phone number and no error; otherwise it succeeds exactly when the digits and '+' signs number 10..15, and the value is those characters in order |
| UserValueObjects.PhoneRoundTrip | src/Services/UserService/PetAdoption.UserService.Domain/ValueObjects/PhoneNumber.cs:17-22 | a stored number holds only digits and '+', and FromOptional of its value gives it back |
| UserValueObjects.PasswordFromHash | src/Services/UserService/PetAdoption.UserService.Domain/ValueObjects/Password.cs:12-18 | any non-blank hash is accepted and stored verbatim |
| UserValueObjects.ValidatePlainText | src/Services/UserService/PetAdoption.UserService.Domain/ValueObjects/Password.cs:23-33 | passes exactly when non-blank with an untrimmed length in 8..100 UTF-16 code units; each rejection has its own message |
| UserValueObjects.PasswordsAreNotTrimmed | src/Services/UserService/PetAdoption.UserService.Domain/ValueObjects/Password.cs:17-32 | seven spaces and a letter pass the length rule, and a padded hash keeps its padding |
| UserValueObjects.UserIdFrom | src/Services/UserService/PetAdoption.UserService.Domain/ValueObjects/UserId.cs:11-19 | any non-blank string is accepted and ToString gives it back verbatim |
| UserValueObjects.UserIdFromInjective | src/Services/UserService/PetAdoption.UserService.Domain/ValueObjects/UserId.cs:3-19 | two ids are equal exactly when their strings are, and From of an id's string is that id |
| UserValueObjects.KeepPhoneCharsConcat | src/Services/UserService/PetAdoption.UserService.Domain/ValueObjects/PhoneNumber.cs:17 | filtering a concatenation is concatenating the filtered parts |
| UserValueObjects.KeepPhoneCharsBlank | src/Services/UserService/PetAdoption.UserService.Domain/ValueObjects/PhoneNumber.cs:17 | nothing of a blank string is kept |
| UserValueObjects.KeepPhoneCharsOfPhoneChars | src/Services/UserService/PetAdoption.UserService.Domain/ValueObjects/PhoneNumber.cs:17 | a string of digits and '+' signs is kept whole |
| UserValueObjects.FullNameCountsCodeUnits | src/Services/UserService/PetAdoption.UserService.Domain/ValueObjects/FullName.cs:16 | the minimum counts UTF-16 code units: one character outside the Basic Multilingual Plane is long enough, one letter is too short |
| UserValueObjects.DefaultPreferences | src/Services/UserService/PetAdoption.UserService.Domain/ValueObjects/UserPreferences.cs:11-15 | no pet type, sizes or age range; e-mail notifications on and SMS off |
| Users.RegisterStep | src/Services/UserService/PetAdoption.UserService.Domain/Entities/User.cs:30-61 | registration succeeds exactly when email, name, hash and phone are all valid, the first invalid one (in that order) being reported; the user is Active with the given role, default preferences, no last login, RegisteredAt and UpdatedAt from their own clock readings, with exactly one UserRegisteredEvent carrying its id, email, name, role and RegisteredAt, stamped with a third reading |
| Users.User.Register | src/Services/UserService/PetAdoption.UserService.Domain/Entities/User.cs:30-61 | the object built (a fresh one) has exactly RegisterStep's state, or the same failure |
| Users.UpdateProfileStep | src/Services/UserService/PetAdoption.UserService.Domain/Entities/User.cs:66-105 | a suspended user is refused with nothing changed; with no argument nothing changes and no event is raised; it passes exactly when the given name and phone are valid, and then sets the given fields, UpdatedAt and one UserProfileUpdatedEvent; a failure raises no event and keeps UpdatedAt, phone and preferences; id, e-mail, password, role, status and timestamps other than UpdatedAt never change |
| Users.User.UpdateProfile | src/Services/UserService/PetAdoption.UserService.Domain/Entities/User.cs:66-105 | the object's new state and the outcome are those of UpdateProfileStep, including the name stored before a later throw |
| Users.ChangePasswordStep | src/Services/UserService/PetAdoption.UserService.Domain/Entities/User.cs:110-122 | a suspended user is refused; it succeeds exactly for an active user and a non-blank hash, storing the hash verbatim, UpdatedAt and one UserPasswordChangedEvent |
| Users.User.ChangePassword | src/Services/UserService/PetAdoption.UserService.Domain/Entities/User.cs:110-122 | new state and outcome are those of ChangePasswordStep; a refusal changes nothing |
| Users.PromoteToAdminStep | src/Services/UserService/PetAdoption.UserService.Domain/Entities/User.cs:127-140 | succeeds exactly when the role is User, whatever the status, making it Admin with UpdatedAt and one UserRoleChangedEvent naming "Admin" |
| Users.User.PromoteToAdmin | src/Services/UserService/PetAdoption.UserService.Domain/Entities/User.cs:127-140 | new state and outcome are those of PromoteToAdminStep |
| Users.User.RecordLogin | src/Services/UserService/PetAdoption.UserService.Domain/Entities/User.cs:145-149 | only LastLoginAt changes, and no event is raised |
| Users.SuspendStep | src/Services/UserService/PetAdoption.UserService.Domain/Entities/User.cs:154-167 | succeeds exactly for an active user, making it Suspended with UpdatedAt and one UserSuspendedEvent carrying the reason |
| Users.User.Suspend | src/Services/UserService/PetAdoption.UserService.Domain/Entities/User.cs:154-167 | new state and outcome are those of SuspendStep |
| Users.ActivateStep | src/Services/UserService/PetAdoption.UserService.Domain/Entities/User.cs:172-179 | succeeds exactly for a suspended user, making it Active with UpdatedAt and no event |
| Users.User.Activate | src/Services/UserService/PetAdoption.UserService.Domain/Entities/User.cs:172-179 | new state and outcome are those of ActivateStep |
| Users.User.ClearDomainEvents | src/Services/UserService/PetAdoption.UserService.Domain/Entities/User.cs:184 | empties the pending events and changes nothing else |
| Users.User.AddDomainEvent | src/Services/UserService/PetAdoption.UserService.Domain/Entities/User.cs:186-189 | appends the event and changes nothing else |
| Users.SuspendActivateRoundTrip | src/Services/UserService/PetAdoption.UserService.Domain/Entities/User.cs:154-179 | suspend then activate restores the user apart from UpdatedAt, with exactly the suspension event added |
| Users.SuspendedUserIsFrozen | src/Services/UserService/PetAdoption.UserService.Domain/Entities/User.cs:71-140 | a suspended user can neither update the profile nor change the password, the refusal changes nothing, and promotion is still allowed |
| Users.UpdateProfileIsNotAtomic | src/Services/UserService/PetAdoption.UserService.Domain/Entities/User.cs:76-104 | a valid name with an invalid phone number throws after the new name is stored, with no event and UpdatedAt unchanged |
| Users.BlankPhoneClears | src/Services/UserService/PetAdoption.UserService.Domain/Entities/User.cs:82-86 | a blank phone number clears the stored one and still raises the update event |
| Users.RunKeepsIdentity | src/Services/UserService/PetAdoption.UserService.Domain/Entities/User.cs:9-189 | over any sequence of calls the id, e-mail and registration time stay fixed, an admin stays admin, and every pending event names the user |
| Users.RegisteredUserAboutItself | src/Services/UserService/PetAdoption.UserService.Domain/Entities/User.cs:52-58 | the registration event names the new user |
| Users.User.Init | src/Services/UserService/PetAdoption.UserService.Domain/Entities/User.cs:24-25 | the object holds exactly the given (stored) state |
| Users.ApplyKeepsIdentity | src/Services/UserService/PetAdoption.UserService.Domain/Entities/User.cs:66-189 | no single operation changes the id, e-mail or registration time, demotes an admin, or adds an event about another user |
| PetOutbox.NewRecordIsPending | PetAdoption.PetService/Domain/OutboxEvent.cs:23-31 | a new record is unprocessed with no failed attempt, no error and no processing time, copies the event's type name, time and serialised data, and is pending |
| PetOutbox.CallsKeepRecord | PetAdoption.PetService/Domain/OutboxEvent.cs:11-43 | over any sequence of MarkAsProcessed and RecordFailure calls, Id, EventType, EventData and OccurredOn never change, RetryCount rises by exactly the number of failures, and IsProcessed is set exactly when it was set before or a mark was made |
| PetOutbox.MarkTwice | PetAdoption.PetService/Domain/OutboxEvent.cs:33-37 | marking twice is marking once at the later time; marking keeps RetryCount and LastError |
| PetOutbox.OutboxEvent.constructor | PetAdoption.PetService/Domain/OutboxEvent.cs:23-31 | the new object holds exactly the pending record built from the event |
| PetOutbox.OutboxEvent.Load | PetAdoption.PetService/Domain/OutboxEvent.cs:20-21 | the object holds exactly the stored document |
| PetOutbox.OutboxEvent.MarkAsProcessed | PetAdoption.PetService/Domain/OutboxEvent.cs:33-37 | processed, with ProcessedOn the clock reading, every other field unchanged |
| PetOutbox.OutboxEvent.RecordFailure | PetAdoption.PetService/Domain/OutboxEvent.cs:39-43 | one more failed attempt and LastError set to the error, every other field unchanged |
| PetOutbox.PendingEventsSpec | PetAdoption.PetService/Infrastructure/OutboxRepository.cs:28-35 | the batch holds only stored records that are unprocessed with fewer than 5 failed attempts, oldest first, at most batchSize of them; all pending records when they fit; a pending record left out is no older than any returned |
| PetOutbox.ReplaceById | PetAdoption.PetService/Infrastructure/OutboxRepository.cs:37-40 | same length; each stored record with the id becomes the given record, every other one is unchanged |
| PetOutbox.InsertManyStepSpec | PetAdoption.PetService/Infrastructure/OutboxRepository.cs:23-26 | the ordered one-at-a-time insert keeps the stored records, appends a prefix of the batch and keeps ids unique; it stops short exactly at the first record whose id is already present, and names that id |
| PetOutbox.InsertManySpec | PetAdoption.PetService/Infrastructure/OutboxRepository.cs:23-26 | an empty batch is refused with EmptyBatch and changes nothing; otherwise InsertMany keeps the stored records, appends a prefix of the batch and keeps ids unique, succeeds exactly when the whole batch went in, and on failure names the first duplicate id |
| PetOutbox.ReplaceByIdSpec | PetAdoption.PetService/Infrastructure/OutboxRepository.cs:37-40 | a replace keeps ids unique and every position's id, and changes nothing when no record has the id |
| PetOutbox.OutboxRepository.constructor | PetAdoption.PetService/Infrastructure/OutboxRepository.cs:11-16 | an empty collection with unique ids |
| PetOutbox.OutboxRepository.Add | PetAdoption.PetService/Infrastructure/OutboxRepository.cs:18-21 | the record is appended exactly when its id is not stored yet, otherwise a duplicate-key error for that id and no change; ids stay unique |
| PetOutbox.OutboxRepository.AddRange | PetAdoption.PetService/Infrastructure/OutboxRepository.cs:23-26 | the collection and result are those of InsertMany, including the refusal of an empty batch; ids stay unique |
| PetOutbox.OutboxRepository.GetPendingEvents | PetAdoption.PetService/Infrastructure/OutboxRepository.cs:28-35 | returns the pending batch described by PendingEventsSpec, changing nothing |
| PetOutbox.OutboxRepository.Update | PetAdoption.PetService/Infrastructure/OutboxRepository.cs:37-40 | the collection becomes the replace-by-id of the old one; ids stay unique |
| OutboxQueries.Filter | PetAdoption.PetService/Infrastructure/OutboxRepository.cs:31 | no longer than the input, and holding exactly the input's elements that satisfy the filter |
| OutboxQueries.Insert | PetAdoption.PetService/Infrastructure/OutboxRepository.cs:32 | the result is the sequence with the one element added, as a multiset |
| OutboxQueries.InsertSorted | PetAdoption.PetService/Infrastructure/OutboxRepository.cs:32 | inserting into a sorted sequence keeps it sorted |
| OutboxQueries.SortBy | PetAdoption.PetService/Infrastructure/OutboxRepository.cs:32 | sorted ascending on the key and a permutation of its input |
| OutboxQueries.FilterConcat | PetAdoption.PetService/Infrastructure/OutboxRepository.cs:31 | filtering a concatenation is concatenating the filtered parts |
| OutboxQueries.FilterNone | PetAdoption.PetService/Infrastructure/OutboxRepository.cs:31 | a filter that matches no element gives the empty sequence |
| OutboxQueries.InsertStable | PetAdoption.PetService/Infrastructure/OutboxRepository.cs:32 | inserting into a sorted sequence places the element after every element with its key |
| OutboxQueries.SortStable | PetAdoption.PetService/Infrastructure/OutboxRepository.cs:32 | the sort is stable: the elements of any one key come out in the order they went in |
| OutboxQueries.QuerySpec | src/Services/UserService/PetAdoption.UserService.Infrastructure/Persistence/OutboxRepository.cs:21-32 | a Find/Sort/Limit query returns only matching stored records, sorted on the key, at most the limit unless it is 0, all matching records (as a multiset) when none had to be cut, and exactly the limit when some were |
| OutboxQueries.QueryOmitsOnlyNewer | PetAdoption.PetService/Infrastructure/OutboxRepository.cs:28-35 | a matching record left out of the result has a key at least that of every record returned |
| OutboxQueries.FilterDistinct | src/Services/UserService/PetAdoption.UserService.Infrastructure/Persistence/OutboxRepository.cs:27-28 | filtering records with distinct ids keeps the ids distinct |
| OutboxQueries.InsertDistinct | src/Services/UserService/PetAdoption.UserService.Infrastructure/Persistence/OutboxRepository.cs:29 | inserting a record whose id is new keeps the ids distinct |
| OutboxQueries.SortDistinct | src/Services/UserService/PetAdoption.UserService.Infrastructure/Persistence/OutboxRepository.cs:29 | sorting keeps the ids distinct |
| OutboxQueries.QueryDistinct | src/Services/UserService/PetAdoption.UserService.Infrastructure/Persistence/OutboxRepository.cs:27-31 | a query over records with distinct ids returns records with distinct ids |
| UserOutbox.DefaultRecord | src/Services/UserService/PetAdoption.UserService.Domain/Entities/OutboxEvent.cs:5-13 | a new record has the fresh id, empty type, data and routing key, the clock reading as CreatedAt, and is unprocessed with no attempt, error or processing time |
| UserOutbox.UnprocessedSpec | src/Services/UserService/PetAdoption.UserService.Infrastructure/Persistence/OutboxRepository.cs:21-32 | the batch holds only unprocessed stored records, whatever their retry count, oldest first, at most batchSize of them; every unprocessed record when they fit; an unprocessed record left out is no older than any returned |
| UserOutbox.MarkSpec | src/Services/UserService/PetAdoption.UserService.Infrastructure/Persistence/OutboxRepository.cs:34-54 | marking processed sets IsProcessed and ProcessedAt on the records with the id only; marking failed adds one to RetryCount and sets LastError on those records only, leaving their other fields; an unknown id changes nothing |
| UserOutbox.GrowsTransitive | src/Services/UserService/PetAdoption.UserService.Infrastructure/Persistence/OutboxRepository.cs:16-54 | what a later collection keeps of an earlier one is transitive |
| UserOutbox.StoreCallsGrow | src/Services/UserService/PetAdoption.UserService.Infrastructure/Persistence/OutboxRepository.cs:16-54 | no sequence of AddAsync, MarkAsProcessedAsync and MarkAsFailedAsync calls deletes or reorders records, changes an id, payload, routing key or CreatedAt, unmarks a processed record or lowers a retry count, and ids stay unique |
| UserOutbox.OutboxRepository.constructor | src/Services/UserService/PetAdoption.UserService.Infrastructure/Persistence/OutboxRepository.cs:11-14 | an empty collection with unique ids |
| UserOutbox.OutboxRepository.AddAsync | src/Services/UserService/PetAdoption.UserService.Infrastructure/Persistence/OutboxRepository.cs:16-19 | the record is appended exactly when its id is not stored yet, otherwise a duplicate-key error for that id and no change; ids stay unique |
| UserOutbox.OutboxRepository.GetUnprocessedAsync | src/Services/UserService/PetAdoption.UserService.Infrastructure/Persistence/OutboxRepository.cs:21-32 | returns the batch described by UnprocessedSpec, changing nothing |
| UserOutbox.OutboxRepository.MarkAsProcessedAsync | src/Services/UserService/PetAdoption.UserService.Infrastructure/Persistence/OutboxRepository.cs:34-43 | the collection becomes the mark-processed-by-id of the old one; ids stay unique |
| UserOutbox.OutboxRepository.MarkAsFailedAsync | src/Services/UserService/PetAdoption.UserService.Infrastructure/Persistence/OutboxRepository.cs:45-54 | the collection becomes the mark-failed-by-id of the old one; ids stay unique |
| UserPersistence.RoutingKeyIdentifiesType | src/Services/UserService/PetAdoption.UserService.Infrastructure/Persistence/UserRepository.cs:71-79 | two events share a routing key exactly when they are of the same type, and every key is a "user." topic ending in ".v1" |
| UserPersistence.UpsertSpec | src/Services/UserService/PetAdoption.UserService.Infrastructure/Persistence/UserRepository.cs:46-51 | the upsert leaves ids unique, stores the document, and keeps exactly the users with other ids |
| UserPersistence.UpsertKeepsOthers | src/Services/UserService/PetAdoption.UserService.Infrastructure/Persistence/UserRepository.cs:46-51 | the document is stored and the users with other ids are exactly those stored before |
| UserPersistence.UpsertDistinct | src/Services/UserService/PetAdoption.UserService.Infrastructure/Persistence/UserRepository.cs:46-51 | ids stay unique under an upsert |
| UserPersistence.UpsertLength | src/Services/UserService/PetAdoption.UserService.Infrastructure/Persistence/UserRepository.cs:46-51 | a stored document with the same id is replaced (same count), otherwise one document is added |
| UserPersistence.EnqueueSpec | src/Services/UserService/PetAdoption.UserService.Infrastructure/Persistence/UserRepository.cs:54-65 | queueing the events from index k on appends, in event order, the records of the events before the first failing insert, and succeeds exactly when it gets through every event |
| UserPersistence.SaveSpec | src/Services/UserService/PetAdoption.UserService.Infrastructure/Persistence/UserRepository.cs:43-69 | a failed user write changes nothing; otherwise the document is upserted and the outbox gains the records of a prefix of the events, all of them exactly when it succeeds; on success the pending events are cleared, on failure they are kept; a user with no events queues nothing |
| UserPersistence.RecordsForSpec | src/Services/UserService/PetAdoption.UserService.Infrastructure/Persistence/UserRepository.cs:56-62 | each queued record is unprocessed, has never failed, and carries its event's type name, payload and routing key |
| UserPersistence.UserRepository.constructor | src/Services/UserService/PetAdoption.UserService.Infrastructure/Persistence/UserRepository.cs:15-19 | an empty Users collection over the given outbox repository, valid whenever that repository is |
| UserPersistence.UserRepository.GetById | src/Services/UserService/PetAdoption.UserService.Infrastructure/Persistence/UserRepository.cs:21-26 | a user found is stored and has the id; nothing is found exactly when no stored user has the id |
| UserPersistence.UserRepository.GetByEmail | src/Services/UserService/PetAdoption.UserService.Infrastructure/Persistence/UserRepository.cs:28-33 | a user found is stored and has the e-mail; nothing is found exactly when no stored user has it |
| UserPersistence.UserRepository.ExistsWithEmail | src/Services/UserService/PetAdoption.UserService.Infrastructure/Persistence/UserRepository.cs:35-41 | true exactly when some stored user has the e-mail |
| UserPersistence.UserRepository.SaveAsync | src/Services/UserService/PetAdoption.UserService.Infrastructure/Persistence/UserRepository.cs:43-69 | the collections, the user and the outcome after the call are those of SaveStep on the state before it; ids stay unique in both collections |
| UserPersistence.FindFirst | src/Services/UserService/PetAdoption.UserService.Infrastructure/Persistence/UserRepository.cs:24-25 | a user found is in the sequence and has the id; nothing is found exactly when no user has it |
| UserPersistence.FindEmail | src/Services/UserService/PetAdoption.UserService.Infrastructure/Persistence/UserRepository.cs:31-32 | a user found is in the sequence and has the e-mail; nothing is found exactly when no user has it |
| UserPersistence.CountEmail | src/Services/UserService/PetAdoption.UserService.Infrastructure/Persistence/UserRepository.cs:38-40 | the count is positive exactly when some user has the e-mail |
| UserPersistence.ExistsMatchesLookup | src/Services/UserService/PetAdoption.UserService.Infrastructure/Persistence/UserRepository.cs:28-41 | the existence check is true exactly when the e-mail lookup finds a user |
| UserDispatch.Fate | src/Services/UserService/PetAdoption.UserService.Infrastructure/BackgroundServices/OutboxProcessorService.cs:95-134 | handling a batch record keeps the stored record's id, type, payload, routing key and CreatedAt, never unmarks it, and raises its retry count by at most one |
| UserDispatch.BatchKeepsIds | src/Services/UserService/PetAdoption.UserService.Infrastructure/BackgroundServices/OutboxProcessorService.cs:95-135 | the loop keeps the collection's length and the id at every position |
| UserDispatch.BatchUntouched | src/Services/UserService/PetAdoption.UserService.Infrastructure/BackgroundServices/OutboxProcessorService.cs:95-135 | a stored record that no batch record handled so far names is left exactly as it was |
| UserDispatch.BatchHandled | src/Services/UserService/PetAdoption.UserService.Infrastructure/BackgroundServices/OutboxProcessorService.cs:97-134 | the stored record that batch position j names ends as that position's own delivery makes it when the loop reaches j, whatever the other positions did, and unchanged otherwise |
| UserDispatch.HandleAt | src/Services/UserService/PetAdoption.UserService.Infrastructure/BackgroundServices/OutboxProcessorService.cs:97-134 | one iteration keeps the collection's length and does to each stored record what Fate says |
| UserDispatch.BatchLog | src/Services/UserService/PetAdoption.UserService.Infrastructure/BackgroundServices/OutboxProcessorService.cs:111-134 | the loop publishes exactly the messages Published lists, and ends early exactly when recording some failure it reached threw |
| UserDispatch.PublishedSpec | src/Services/UserService/PetAdoption.UserService.Infrastructure/BackgroundServices/OutboxProcessorService.cs:100-118 | at most one message per batch record; every message goes to "user.events" with the routing key and payload of a non-skipped batch record whose publish went through; every such record the loop reaches is published |
| UserDispatch.StoreBatchAt | src/Services/UserService/PetAdoption.UserService.Infrastructure/BackgroundServices/OutboxProcessorService.cs:86-135 | for each stored record: it only grows; a skipped, processed or unfetched record is unchanged; a fetched record the loop reaches is the one fetched and ends as its own delivery makes it |
| UserDispatch.StoreBatch | src/Services/UserService/PetAdoption.UserService.Infrastructure/BackgroundServices/OutboxProcessorService.cs:86-135 | the loop over a fetched batch keeps the collection's length and ids unique, only grows records, leaves skipped, processed and unfetched records unchanged, and handles each reached record by its own delivery |
| UserDispatch.TickSpec | src/Services/UserService/PetAdoption.UserService.Infrastructure/BackgroundServices/OutboxProcessorService.cs:81-136 | one tick: records only grow and keep unique ids; a record with RetryCount of five or more, a processed record or an unfetched one is unchanged; each reached fetched record is changed by its own delivery alone; the channel gains exactly the published messages; the tick ends early exactly when recording a failure threw |
| UserDispatch.TickIsBatch | src/Services/UserService/PetAdoption.UserService.Infrastructure/BackgroundServices/OutboxProcessorService.cs:86-91 | an empty fetch returns with nothing changed, the same as running the loop over no records |
| UserDispatch.TickAt | src/Services/UserService/PetAdoption.UserService.Infrastructure/BackgroundServices/OutboxProcessorService.cs:81-136 | TickSpec's statements for the stored record at one position |
| UserDispatch.PublishedThenFailed | src/Services/UserService/PetAdoption.UserService.Infrastructure/BackgroundServices/OutboxProcessorService.cs:111-133 | a record published whose mark failed is on the channel, still unprocessed, with one more failed attempt and the exception text as LastError (at-least-once delivery) |
| UserDispatch.RunTicksGrow | src/Services/UserService/PetAdoption.UserService.Infrastructure/BackgroundServices/OutboxProcessorService.cs:40-53 | over any run of ticks, failed fetches included, records are never lost and only grow, ids stay unique, and the channel's log only grows |
| UserDispatch.AllSkipped | src/Services/UserService/PetAdoption.UserService.Infrastructure/BackgroundServices/OutboxProcessorService.cs:100-106 | a batch of records that have each failed five or more times is skipped entirely, changing nothing |
| UserDispatch.StarvedTick | src/Services/UserService/PetAdoption.UserService.Infrastructure/BackgroundServices/OutboxProcessorService.cs:86-106 | when a hundred or more unprocessed records with five or more failures are older than every eligible record, a tick changes nothing, whatever the broker does |
| UserDispatch.FetchedIsExhausted | src/Services/UserService/PetAdoption.UserService.Infrastructure/BackgroundServices/OutboxProcessorService.cs:86 | under the same condition, every record the fetch returns has five or more failures |
| UserDispatch.StarvedForever | src/Services/UserService/PetAdoption.UserService.Infrastructure/BackgroundServices/OutboxProcessorService.cs:40-106 | under the same condition, no run of ticks changes the collection or publishes anything, so the eligible records are never published |
| UserDispatch.CorrectedTickProgress | src/Services/UserService/PetAdoption.UserService.Infrastructure/BackgroundServices/OutboxProcessorService.cs:86-134 | with the fetch restricted to eligible records, whenever one exists the tick handles the oldest eligible record first, by its own delivery alone, and publishes it when the publish goes through |
| UserDispatch.OldestEligibleFirst | src/Services/UserService/PetAdoption.UserService.Infrastructure/BackgroundServices/OutboxProcessorService.cs:86 | the restricted fetch is non-empty when a record is eligible, holds only eligible stored records, and starts with the oldest of them |
| UserDispatch.AbortedStays | src/Services/UserService/PetAdoption.UserService.Infrastructure/BackgroundServices/OutboxProcessorService.cs:126-134 | once an iteration has thrown, the later positions change nothing |
| UserDispatch.OutboxProcessorService.constructor | src/Services/UserService/PetAdoption.UserService.Infrastructure/BackgroundServices/OutboxProcessorService.cs:20-28 | the service holds the given repository and an empty publish log |
| UserDispatch.OutboxProcessorService.ProcessOutboxEvents | src/Services/UserService/PetAdoption.UserService.Infrastructure/BackgroundServices/OutboxProcessorService.cs:81-136 | the collection, the channel's log and whether an exception left the method are those of TickStep; ids stay unique |
| UserDispatch.OutboxProcessorService.HandleOne | src/Services/UserService/PetAdoption.UserService.Infrastructure/BackgroundServices/OutboxProcessorService.cs:97-134 | the collection, the log and whether the iteration threw are those of one loop iteration |
| UserDispatch.OutboxProcessorService.Run | src/Services/UserService/PetAdoption.UserService.Infrastructure/BackgroundServices/OutboxProcessorService.cs:30-53 | the collection and the log after a run of ticks are those of RunTicks; ids stay unique |
| PetDispatch.FateSpec | src/Services/PetService/PetAdoption.PetService.Infrastructure/BackgroundServices/OutboxProcessorService.cs:68-98 | a record handled by itself keeps its id, type, payload and OccurredOn, keeps a processed mark and gains at most one failed attempt; it is unchanged when its event does not decode; a publish and Update that go through mark it processed with the same retry count; a failed publish with a working failure Update charges it one attempt and the error, processed mark unchanged |
| PetDispatch.MarkedThenCharged | src/Services/PetService/PetAdoption.PetService.Infrastructure/BackgroundServices/OutboxProcessorService.cs:74-97 | a publish that went through, a failing Update and a working failure Update store the record both processed, at the clock reading, and charged with one more failed attempt |
| PetDispatch.BatchKeepsIds | src/Services/PetService/PetAdoption.PetService.Infrastructure/BackgroundServices/OutboxProcessorService.cs:63-99 | the loop keeps the collection's length and the id at every position |
| PetDispatch.BatchUntouched | src/Services/PetService/PetAdoption.PetService.Infrastructure/BackgroundServices/OutboxProcessorService.cs:63-99 | a stored record that no batch record handled so far names is left exactly as it was |
| PetDispatch.BatchLog | src/Services/PetService/PetAdoption.PetService.Infrastructure/BackgroundServices/OutboxProcessorService.cs:74-97 | the publisher is handed exactly the events Handed lists, and the loop ends early exactly when some failure-recording Update it reached threw |
| PetDispatch.BatchHandled | src/Services/PetService/PetAdoption.PetService.Infrastructure/BackgroundServices/OutboxProcessorService.cs:63-98 | the stored record that batch position j loaded ends as that position's own decode and delivery make it when the loop reaches j before cancellation, and unchanged otherwise |
| PetDispatch.StoreBatchAt | src/Services/PetService/PetAdoption.PetService.Infrastructure/BackgroundServices/OutboxProcessorService.cs:55-99 | for each stored record: it keeps its identity, keeps a processed mark and gains at most one attempt; an unfetched record is unchanged; a fetched one ends as its own decode and delivery make it if reached, unchanged otherwise |
| PetDispatch.TickSpec | src/Services/PetService/PetAdoption.PetService.Infrastructure/BackgroundServices/OutboxProcessorService.cs:49-102 | one tick: ids stay unique and every record keeps its identity, keeps a processed mark and gains at most one attempt; unfetched records are unchanged; each fetched record changes only if reached before cancellation, and then by its own decode and delivery alone; the publisher is handed exactly Handed's events; the tick ends early exactly when a failure Update threw |
| PetDispatch.NotPendingUntouched | src/Services/PetService/PetAdoption.PetService.Infrastructure/BackgroundServices/OutboxProcessorService.cs:55 | a processed record, or one with five failed attempts, is left as it was by a tick |
| PetDispatch.BatchIsStored | src/Services/PetService/PetAdoption.PetService.Infrastructure/BackgroundServices/OutboxProcessorService.cs:55-56 | a fetched record is the stored record with its id |
| PetDispatch.CancelLeavesRest | src/Services/PetService/PetAdoption.PetService.Infrastructure/BackgroundServices/OutboxProcessorService.cs:65-66 | a fetched record at or after the position where cancellation is seen is left as it was |
| PetDispatch.HandedSpec | src/Services/PetService/PetAdoption.PetService.Infrastructure/BackgroundServices/OutboxProcessorService.cs:71-125 | at most one event per batch position, each the decoded event of a record the loop reached before cancellation whose publish went through |
| PetDispatch.RunTicksKeep | src/Services/PetService/PetAdoption.PetService.Infrastructure/BackgroundServices/OutboxProcessorService.cs:28-47 | over any run of n ticks, failed fetches included, no record is lost, ids, types, payloads and times stay put, ids stay unique, processed marks stay, each retry count rises by at most n, and the publisher's log only grows |
| PetDispatch.AbortedStays | src/Services/PetService/PetAdoption.PetService.Infrastructure/BackgroundServices/OutboxProcessorService.cs:86-98 | once an iteration has thrown, the later positions change nothing |
| PetDispatch.NothingAfterCancel | src/Services/PetService/PetAdoption.PetService.Infrastructure/BackgroundServices/OutboxProcessorService.cs:65-66 | from the position where cancellation is seen on, nothing more changes |
| PetDispatch.OutboxProcessorService.constructor | src/Services/PetService/PetAdoption.PetService.Infrastructure/BackgroundServices/OutboxProcessorService.cs:20-26 | the service holds the given repository and an empty publisher log |
| PetDispatch.OutboxProcessorService.ProcessPendingEvents | src/Services/PetService/PetAdoption.PetService.Infrastructure/BackgroundServices/OutboxProcessorService.cs:49-102 | the collection, what the publisher was handed, and whether an exception left the method are those of TickStep; ids stay unique |
| PetDispatch.OutboxProcessorService.HandleOne | src/Services/PetService/PetAdoption.PetService.Infrastructure/BackgroundServices/OutboxProcessorService.cs:68-98 | the collection, the publisher log and whether the iteration threw are those of one loop iteration on the loaded record |
| PetDispatch.OutboxProcessorService.Run | src/Services/PetService/PetAdoption.PetService.Infrastructure/BackgroundServices/OutboxProcessorService.cs:28-47 | the collection and the publisher log after a run of ticks are those of RunTicks; ids stay unique |
| ErrorMapping.MapErrorCodeToHttpStatus | src/Services/PetService/PetAdoption.PetService.Infrastructure/Middleware/ExceptionHandlingMiddleware.cs:77-97 | 404 exactly for pet_not_found; 400 exactly for invalid_pet_name and invalid_pet_type; 409 exactly for pet_not_available, pet_not_reserved, concurrency_conflict and invalid_operation; 500 for everything else |
| ErrorMapping.MappingFollowsKind | src/Services/PetService/PetAdoption.PetService.Infrastructure/Middleware/ExceptionHandlingMiddleware.cs:81-95 | every defined subcode gets the status of the group the middleware files it under (not found, validation, business rule, unknown), always one of 400, 404, 409 and 500 |
| ErrorMapping.UnknownStringIsServerError | src/Services/PetService/PetAdoption.PetService.Infrastructure/Middleware/ExceptionHandlingMiddleware.cs:94-95 | a string that is no defined subcode gets 500 |
| ErrorMapping.StatusForFailure | src/Services/PetService/PetAdoption.PetService.Infrastructure/Middleware/ExceptionHandlingMiddleware.cs:26-75 | a domain exception gets the status of its subcode's group; any other exception gets 500 |
| PetQueries.ToDictionarySpec | src/Services/PetService/PetAdoption.PetService.Application/Queries/GetAllPetsQueryHandler.cs:28 | the dictionary is built exactly when the pet type ids are distinct, and then maps each type's id to its name and holds no other key; otherwise ToDictionary's ArgumentException |
| PetQueries.GetAllPets | src/Services/PetService/PetAdoption.PetService.Application/Queries/GetAllPetsQueryHandler.cs:22-36 | fails exactly when two pet types share an id; otherwise one DTO per pet, in order, with the pet's id, name and status string, and the name of the type whose id is the pet's PetTypeId, or "Unknown" when no type has it |
| PetQueries.DictionaryIgnoresOtherFields | src/Services/PetService/PetAdoption.PetService.Application/Queries/GetAllPetsQueryHandler.cs:28 | two type lists with the same ids and names, position by position, give the same dictionary |
| PetQueries.ActivityIgnored | src/Services/PetService/PetAdoption.PetService.Application/Queries/GetAllPetsQueryHandler.cs:25-33 | deactivating a pet type does not change the listing |
| Amqp.ExchangeDeclareSpec | src/Services/PetService/PetAdoption.PetService.Infrastructure/Messaging/RabbitMqTopologyBuilder.cs:16-19 | on an open channel an exchange declare succeeds exactly when the exchange has the same properties, or is missing and its name is not reserved; it then sets that exchange and nothing else; a refusal leaves the broker as it was, closes the channel, and carries 406 for a clash or 403 for a reserved new name |
| Amqp.QueueDeclareSpec | src/Services/PetService/PetAdoption.PetService.Infrastructure/Messaging/RabbitMqTopologyBuilder.cs:30-33 | the same for a queue declare |
| Amqp.DeclareIdempotent | src/Services/PetService/PetAdoption.PetService.Infrastructure/Messaging/RabbitMqTopologyBuilder.cs:16-33 | declaring again with the same properties after a successful declare succeeds and changes nothing |
| Amqp.DeleteThenDeclare | src/Services/UserService/PetAdoption.UserService.Infrastructure/Messaging/RabbitMqTopologyBuilder.cs:27-52 | on an open channel, deleting an unreserved entity and declaring it again succeeds, leaves it with the new properties, drops its bindings and keeps the rest of the broker |
| Amqp.QueueBindSpec | src/Services/PetService/PetAdoption.PetService.Infrastructure/Messaging/RabbitMqTopologyBuilder.cs:42-45 | on an open channel a bind succeeds exactly when the queue and the exchange exist, and then adds exactly that binding; otherwise it is refused with 404, the broker unchanged and the channel closed with 404 |
| Amqp.ClosedChannelRefuses | src/Services/UserService/PetAdoption.UserService.Infrastructure/Messaging/RabbitMqTopologyBuilder.cs:23-53 | on a closed channel every declare, delete and bind fails with AlreadyClosed carrying the close's reply code, and changes nothing |
| Amqp.OperationsKeepWellFormed | src/Services/PetService/PetAdoption.PetService.Infrastructure/Messaging/RabbitMqTopologyBuilder.cs:16-46 | no declare, delete or bind leaves a binding whose queue or exchange is missing |
| Topology.ConfigDefaults | src/Services/PetService/PetAdoption.PetService.Infrastructure/Messaging/Configuration/RabbitMqOptions.cs:3-36 | an exchange config defaults to a durable, non-auto-deleted topic exchange; a queue config to a durable, non-exclusive, non-auto-deleted queue with no bindings and no arguments; a binding to the empty routing key; the options to localhost:5672, guest/guest, virtual host "/", no exchanges and no queues |
| Topology.QueueActionsAppend | src/Services/PetService/PetAdoption.PetService.Infrastructure/Messaging/RabbitMqTopologyBuilder.cs:56-64 | the actions of two lists of queues are the actions of the first followed by those of the second |
| Topology.QueueActionsSnoc | src/Services/PetService/PetAdoption.PetService.Infrastructure/Messaging/RabbitMqTopologyBuilder.cs:56-64 | one more queue appends that queue's declaration and bindings |
| Topology.QueueActionsSplit | src/Services/PetService/PetAdoption.PetService.Infrastructure/Messaging/RabbitMqTopologyBuilder.cs:56-64 | queue k's declaration and bindings sit between those of the queues before it and after it |
| Topology.CompileExchangesFirst | src/Services/PetService/PetAdoption.PetService.Infrastructure/Messaging/RabbitMqTopologyBuilder.cs:51-54 | the recorded actions start with one declaration per configured exchange, in order, with its configured type, durability and auto-delete |
| Topology.CompileQueueBlock | src/Services/PetService/PetAdoption.PetService.Infrastructure/Messaging/RabbitMqTopologyBuilder.cs:56-64 | queue k's declaration, with its configured properties and arguments, is followed immediately by one bind per configured binding, in order, and the next queue's block starts right after them |
| Topology.QueueActionsFromConfig | src/Services/PetService/PetAdoption.PetService.Infrastructure/Messaging/RabbitMqTopologyBuilder.cs:56-64 | every queue action declares a configured queue or binds it as one of its configured bindings says |
| Topology.CompileFromConfig | src/Services/PetService/PetAdoption.PetService.Infrastructure/Messaging/RabbitMqTopologyBuilder.cs:49-67 | every recorded action comes from the configuration: a configured exchange, a configured queue, or one of a configured queue's bindings |
| Topology.RabbitMqTopologyBuilder.constructor | src/Services/PetService/PetAdoption.PetService.Infrastructure/Messaging/RabbitMqTopologyBuilder.cs:8 | no recorded actions |
| Topology.RabbitMqTopologyBuilder.DeclareExchange | src/Services/PetService/PetAdoption.PetService.Infrastructure/Messaging/RabbitMqTopologyBuilder.cs:10-21 | appends exactly one exchange declaration with the given (or default) type, durability and auto-delete, and returns the builder |
| Topology.RabbitMqTopologyBuilder.DeclareQueue | src/Services/PetService/PetAdoption.PetService.Infrastructure/Messaging/RabbitMqTopologyBuilder.cs:23-35 | appends exactly one queue declaration with the given (or default) properties and arguments, and returns the builder |
| Topology.RabbitMqTopologyBuilder.BindQueue | src/Services/PetService/PetAdoption.PetService.Infrastructure/Messaging/RabbitMqTopologyBuilder.cs:37-47 | appends exactly one bind with the given (or empty) routing key, and returns the builder |
| Topology.RabbitMqTopologyBuilder.FromConfiguration | src/Services/PetService/PetAdoption.PetService.Infrastructure/Messaging/RabbitMqTopologyBuilder.cs:49-67 | appends exactly the compiled configuration, exchanges first, and returns the builder |
| Topology.RabbitMqTopologyBuilder.AddQueue | src/Services/PetService/PetAdoption.PetService.Infrastructure/Messaging/RabbitMqTopologyBuilder.cs:58-63 | appends one queue's declaration followed by its bindings in order |
| PetTopology.RunActionSpec | src/Services/PetService/PetAdoption.PetService.Infrastructure/Messaging/RabbitMqTopologyBuilder.cs:16-46 | on an open channel an action succeeds exactly when the broker allows it, after which the broker has what it declares and the channel is open; a refusal leaves the broker as it was and closes the channel with its own 403, 404 or 406 |
| PetTopology.ActionKeepsHolds | src/Services/PetService/PetAdoption.PetService.Infrastructure/Messaging/RabbitMqTopologyBuilder.cs:16-46 | no action undoes an exchange, queue or binding the broker already has |
| PetTopology.RunAllKeepsHolds | src/Services/PetService/PetAdoption.PetService.Infrastructure/Messaging/RabbitMqTopologyBuilder.cs:69-75 | no setup run undoes what the broker already has |
| PetTopology.RunAllAppend | src/Services/PetService/PetAdoption.PetService.Infrastructure/Messaging/RabbitMqTopologyBuilder.cs:69-75 | running two lists of actions in turn is running the first and, if it passed, the second |
| PetTopology.SetupEstablishes | src/Services/PetService/PetAdoption.PetService.Infrastructure/Messaging/RabbitMqTopologyBuilder.cs:69-75 | a setup that succeeds on an open channel leaves the channel open and the broker with every exchange, queue and binding it ran |
| PetTopology.SetupFailsAt | src/Services/PetService/PetAdoption.PetService.Infrastructure/Messaging/RabbitMqTopologyBuilder.cs:69-75 | a failed setup stopped at one action: those before it passed, the broker then refused that one, and the broker is as it was after those before it |
| PetTopology.ExchangeMismatchFails | src/Services/PetService/PetAdoption.PetService.Infrastructure/Messaging/RabbitMqTopologyBuilder.cs:16-19 | an exchange already on the broker with other properties than a recorded declaration of it makes the setup fail |
| PetTopology.QueueMismatchFails | src/Services/PetService/PetAdoption.PetService.Infrastructure/Messaging/RabbitMqTopologyBuilder.cs:30-33 | a queue already on the broker with other properties than a recorded declaration of it makes the setup fail |
| PetTopology.HoldingRunIsNoop | src/Services/PetService/PetAdoption.PetService.Infrastructure/Messaging/RabbitMqTopologyBuilder.cs:69-75 | on an open channel to a broker that already has everything, a run succeeds and changes nothing |
| PetTopology.RerunIsNoop | src/Services/PetService/PetAdoption.PetService.Infrastructure/Messaging/RabbitMqTopologyBuilder.cs:69-75 | running a successful setup again succeeds and changes nothing |
| PetTopology.SetupAsync | src/Services/PetService/PetAdoption.PetService.Infrastructure/Messaging/RabbitMqTopologyBuilder.cs:69-75 | the channel and outcome after the loop are those of running the recorded actions in order, stopping at the first refusal |
| UserTopology.RecoveryNeverRepairs | src/Services/UserService/PetAdoption.UserService.Infrastructure/Messaging/RabbitMqTopologyBuilder.cs:17-54 | each action as written ends in the same broker and channel as without the recovery and fails exactly when that fails; a 406 on an open channel ends in AlreadyClosed carrying 406 |
| UserTopology.RunAllAgrees | src/Services/UserService/PetAdoption.UserService.Infrastructure/Messaging/RabbitMqTopologyBuilder.cs:90-96 | the whole setup as written ends in the same broker and channel as without the recovery and fails exactly when that fails |
| UserTopology.ExchangeClashLeavesExchange | src/Services/UserService/PetAdoption.UserService.Infrastructure/Messaging/RabbitMqTopologyBuilder.cs:23-29 | an exchange "user.events" that exists as fanout, configured as topic: the declaration fails with AlreadyClosed 406 and the exchange stays fanout |
| UserTopology.CorrectedDeclareRepairs | src/Services/UserService/PetAdoption.UserService.Infrastructure/Messaging/RabbitMqTopologyBuilder.cs:23-53 | with the delete and redeclare on a reopened channel, a declaration succeeds for every unreserved name (and for a reserved one already identical), leaves the entity with the desired properties and the other kind of entity untouched, and adds no binding |
| UserTopology.SetupAsync | src/Services/UserService/PetAdoption.UserService.Infrastructure/Messaging/RabbitMqTopologyBuilder.cs:90-96 | the channel and outcome after the loop are those of running the recorded actions as written in order, stopping at the first that throws |
| UserTopology.StartSpec | src/Services/UserService/PetAdoption.UserService.Infrastructure/Messaging/RabbitMqTopologySetup.cs:23-74 | at most ten attempts; a rethrow only after the tenth; 2000 ms waited after each failed attempt but the last; a success only on an attempt that connected, and straight after the first attempt that connects and sets everything up |
| UserTopology.ExchangeMismatchNeverStarts | src/Services/UserService/PetAdoption.UserService.Infrastructure/Messaging/RabbitMqTopologySetup.cs:23-74 | with a configured exchange already on the broker with other properties, every attempt fails: StartAsync rethrows after ten attempts and nine waits, and the exchange keeps its old properties |
| UserTopology.RabbitMqTopologySetup.constructor | src/Services/UserService/PetAdoption.UserService.Infrastructure/Messaging/RabbitMqTopologySetup.cs:15-21 | the setup holds the given options and broker |
| UserTopology.RabbitMqTopologySetup.StartAsync | src/Services/UserService/PetAdoption.UserService.Infrastructure/Messaging/RabbitMqTopologySetup.cs:23-74 | the broker, whether it returned, the attempts made and the time waited are those of StartFrom from attempt 1, with a fresh builder compiled from the options on each attempt |
| Text.Trim | PetAdoption.PetService/Domain/ValueObjects/PetName.cs:29 | the trimmed string is no longer than the input |
| Text.TrimShape | PetAdoption.PetService/Domain/ValueObjects/PetName.cs:29 | Trim gives the empty string exactly for blank input, and otherwise a string with no white space at either end |
| Text.TrimOfTrimmed | src/Services/UserService/PetAdoption.UserService.Domain/ValueObjects/FullName.cs:14 | a string with no white space at either end is unchanged by Trim |
| Text.TrimIdempotent | src/Services/UserService/PetAdoption.UserService.Domain/ValueObjects/FullName.cs:14 | trimming twice is trimming once |
| Text.TrimIgnoresPadding | PetAdoption.PetService/Domain/ValueObjects/PetName.cs:29 | white space added at either end does not change the trimmed string |
| Text.TrimSplit | PetAdoption.PetService/Domain/ValueObjects/PetName.cs:29 | the input is the trimmed string between a blank prefix and a blank suffix |
| Text.ToLower | src/Services/UserService/PetAdoption.UserService.Domain/ValueObjects/Email.cs:14 | same length; no upper-case ASCII letter is left; an upper-case letter becomes its lower-case letter and every other character is kept in place |
| Text.ToLowerIdempotent | src/Services/UserService/PetAdoption.UserService.Domain/ValueObjects/Email.cs:14 | lower-casing twice is lower-casing once |
| Text.TrimToLowerCommute | src/Services/UserService/PetAdoption.UserService.Domain/ValueObjects/Email.cs:14 | trimming and lower-casing commute |
| Text.Utf16Length | src/Services/UserService/PetAdoption.UserService.Domain/ValueObjects/FullName.cs:16 | String.Length counts UTF-16 code units: between the number of characters and twice it, equal to it exactly when every character is in the Basic Multilingual Plane, twice it when none is |
| Text.Utf16LengthToLower | src/Services/PetService/PetAdoption.PetService.Domain/PetType.cs:82 | lower-casing keeps the UTF-16 length |

## Left out

- I/O is not modelled: `RabbitMqPublisher`, `ConnectToRabbitMq`, the dispatchers' `StopAsync`, `RabbitMqTopologySetup.StopAsync`, and the opening, closing and disposing of connections and channels. The dispatchers take the outcome of each publish as an input. The topology code works on one abstract channel.
- The timing of the poll loops is not modelled: `Task.Delay`, the cancellation token's plumbing and the infinite poll loops. `Run` performs a given finite number of ticks. Cancellation is the batch position at which the token is first seen set. The 2000 ms retry delay of `StartAsync` is recorded as a number.
- Several dispatcher instances running at once are not modelled. The model is sequential.
- JSON serialisation and reflection are not modelled: `JsonSerializer` and `Type.GetType`. Decoding is a partial function supplied by the caller, and the JSON text of an outbox record is an input.
- `DateTime.UtcNow`, `Guid.NewGuid` and `UserId.Create` are inputs. Because of that, `Users.User.Register` and `Pets.Pet.Create` take the fresh id and the time as arguments. Each separate reading of the clock is a separate input, and no order between readings is assumed. In the user service, Register reads it for RegisteredAt and again for UpdatedAt, and every raised event reads it once more for its OccurredOn.
- The MongoDB and BSON configuration and serializers, and the repositories without logic, are not modelled.
- Command and query handlers, the mediator, controllers, hosting, authentication, password hashing and token generation are not modelled.
- `ExceptionHandlingMiddleware` is modelled only for the status it chooses. The logging and the JSON body that `WriteErrorResponseAsync` writes are not.
- Optimistic concurrency is not modelled beyond `IncrementVersion`. No modelled write checks the version.
- The pet service's `RabbitMqTopologySetup` is not modelled. It makes a single attempt and performs no logic beyond I/O.
- The user service's `RabbitMqOptions.cs` is not part of this model. The user builder's `FromConfiguration` reads the same fields as the pet service's options, so the model uses that one options shape for both.
- Queue arguments are narrowed to strings: `QueueOptions.Arguments` (`Dictionary<string, object>?`) is a `map<string, string>` in `Amqp.QueueProps`, and it is compared when a redeclaration is checked for 406. A mismatch only in a value's type, such as the integer 60000 against the string "60000", is therefore not seen. What the x-arguments mean (message TTL, dead-lettering, queue length limits) is not modelled.
- Broker features the topology code does not touch are not modelled: exclusive-queue ownership, passive declarations, publishing and consuming. Names starting with "amq." are reserved as RabbitMQ reserves them.
- Amqp: two refusals a configuration could trigger are not modelled. RabbitMQ refuses an exchange type it does not know with 503 COMMAND_INVALID. It also refuses declaring, deleting or binding to the default exchange "" with 403 ACCESS_REFUSED. The model treats an unknown type like any other type, and "" like any other name.
- Int32 wrap-around is not modelled. `Pet.Version` and the outbox `RetryCount` fields are C# `int`s, and the model counts them with unbounded integers. `Version++` would wrap only after 2^31 - 1 increments. Neither service charges a failed attempt to a record that has reached 5: the pet fetch takes only records with `RetryCount < 5`, and the user dispatcher skips records at 5 or more. So `RetryCount` never goes past 5.
- Text: `ToLowerInvariant`, `OrdinalIgnoreCase` comparison and `char.IsDigit` are modelled for ASCII only. `char.IsWhiteSpace` is the full set of .NET white-space characters.
- OutboxQueries.Limit: MongoDB does not specify the order of records with equal sort keys. The model fixes that order as stored order, through a stable sort. `Limit(0)` means no limit, and a negative limit n returns at most |n| documents, as on the MongoDB server.
- `UserRepository.GetRoutingKey` throws for an event type it does not know. That branch cannot arise in the model, because the model's event type has exactly the five user events.
- The declaration of the `UserStatus` enum is not part of this model. It is taken as the two values, Active and Suspended, that `User.cs` uses. `UserRole` follows `Enums/UserRole.cs`.
- The `DomainException` and `ErrorResponse` classes are replaced by a failure datatype. As written, they use the string-constant class `PetDomainErrorCode` as a type.
- `PetAdoption.PetService/` also holds older copies of the pet service. The model covers only its `OutboxEvent`, `OutboxRepository` and `PetName`. The others are superseded by the `src/` versions.
- A test that expects behaviour the code does not have is not encoded. For example, `Email.From` accepts "@nodomain.com", and the model agrees with the code.

## Findings

| source | as written | input that shows it | evidently intended | confidence | as-written member | corrected member |
|---|---|---|---|---|---|---|
| src/Services/UserService/PetAdoption.UserService.Infrastructure/Messaging/RabbitMqTopologyBuilder.cs:23-29 | On reply 406, the same channel deletes and redeclares the exchange (the queue at 47-53 likewise). The 406 has already closed that channel, so the delete throws AlreadyClosedException and the entity is never repaired. Because every attempt ends the same way, `StartAsync` fails all ten attempts. | exchange "user.events" exists as fanout, durable, not auto-delete; the configuration declares it as topic | run the delete and the redeclaration on a fresh channel, so the entity ends with the configured properties | not executed | UserTopology.ExchangeClashLeavesExchange, UserTopology.RecoveryNeverRepairs, UserTopology.ExchangeMismatchNeverStarts | UserTopology.CorrectedRunAction, UserTopology.CorrectedDeclareRepairs |
| src/Services/UserService/PetAdoption.UserService.Infrastructure/Persistence/OutboxRepository.cs:24 | The fetch keeps every unprocessed record, whatever its retry count. The dispatcher fetches 100 of them (OutboxProcessorService.cs:86) and then skips those with five or more failed attempts (100-106). | 100 unprocessed records with RetryCount 5, all created before one fresh record with RetryCount 0: every tick fetches only the dead records and changes nothing, so the fresh record is never published | fetch only unprocessed records with fewer than five failed attempts, as the pet store's `GetPendingEvents` does | not executed | UserDispatch.StarvedTick, UserDispatch.StarvedForever | UserDispatch.EligibleBatch, UserDispatch.CorrectedTickProgress |
