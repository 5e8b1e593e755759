# Transport backend core in Dafny

This project models the rule-carrying core of a Django transport-management backend. It covers:

- phone login by one-time code;
- the driver ↔ vehicle assignment that the bus, car and bike handlers keep in step;
- booking creation and the accept/reject transition;
- the per-user profile upserts;
- the request validators with the role table they draw on;
- the role-based user lookup behind JWT authentication.

The handlers are imperative, so each is modelled twice:

- a pure step function from the old tables to a response and the new tables (`Otp.SendStep`, `Fleet.StatusStep`, `Profiles.UpsertStep`, …);
- a class method that updates the tables in place and is proved equal to that step function (`Otp.OtpService`, `Fleet.FleetService`, `Profiles.ProfileTable`).

The properties the code is meant to have are proved as lemmas about the step functions. Examples:

- the fixed order of OTP rejections;
- the five-guess bound;
- the lockout until a new code is sent;
- the expiry boundary;
- at most one accepted booking per user;
- the Bus, Car, Bike order of vehicle auto-detection;
- one profile record per user.

How the model represents the world:

- **Tables and keys.** Database tables are maps. Auto-increment primary keys come from `Tables.Table`, and `.first()` returns the matching row with the smallest key.
- **Time.** Instants are integer microseconds, the resolution of Django datetimes.
- **Foreign calls are inputs.** The random draw, the salt, the SMS outcome, the minted token pair and the model serializers' validity verdicts are all inputs.
- **Saving a booking.** The booking model's driver column is `drivers`, as the handlers name it. Saving under any other keyword raises, as Django's model constructor does (see "## Findings").
- **Password hashing.** `Foreign.MakePassword` and `Foreign.CheckPassword` satisfy `CheckPassword(x, MakePassword(y, s)) <==> x == y`.

Files, one module each:

- `wrappers.dfy`: `Option`.
- `decimal.dfy`: decimal numerals.
- `foreign.dfy`: password hashing and tokens.
- `http.dfy`: responses.
- `tables.dfy`: ORM tables.
- `constants.dfy`: the role table.
- `serializers.dfy`: field rules and the token payload.
- `authentication.dfy`: `get_user`.
- `otp.dfy`: `send_otp` and `verify_otp`.
- `fleet.dfy`: drivers, vehicles and bookings.
- `profiles.dfy`: the profile upserts.

## Model

| member | source | states |
|---|---|---|
| Constants.Firsts | backend/project/myapp/constants.py:16 | the result has one entry per pair, and entry i is the first component of pair i |
| Constants.GetRoleChoices | backend/project/myapp/constants.py:14-16 | its length equals `len(ROLE_CHOICES)`, and entry i is the value of the i-th declared pair |
| Constants.RoleValues | backend/project/myapp/constants.py:6-11 | the role values are exactly `["user","driver","conductor","operator"]`, in that order, with no duplicates |
| Decimal.DecimalRoundTrip | backend/project/myapp/views.py:88 | reading back the decimal numeral of `n` gives `n` (the `str` of `generate_otp`) |
| Otp.GenerateOtp | backend/project/myapp/views.py:87-88 | the code is a 4-character all-digit string with no leading zero, whose value is the draw in 1000..9999 |
| Otp.GeneratedCodeFitsField | backend/project/myapp/views.py:87-88 | every generated code passes the verify serializer's 6-character `otp` rule |
| Foreign.CheckMakePassword | backend/project/myapp/views.py:223 | a candidate checks against a stored hash exactly when it equals the hashed secret |
| Otp.WholeSeconds | backend/project/myapp/views.py:161-162 | `int(total_seconds())` truncates toward zero: the whole seconds lie within one second of the difference, on the side of zero |
| Otp.InCooldown | backend/project/myapp/views.py:161 | a record is in its cooldown when it has a `last_sent_at` less than 60 s before now |
| Otp.Expired | backend/project/myapp/views.py:217 | a record is expired when it has an `expires_at` strictly before now |
| Otp.CooldownWait | backend/project/myapp/views.py:162 | the wait is at least 1. On a clock that has not gone back it is at most 60, and it is the remaining cooldown rounded up to whole seconds |
| Otp.SendStep | backend/project/myapp/views.py:146-197 | See "Otp.SendStep outcomes" below the table. |
| Otp.VerifyStep | backend/project/myapp/views.py:201-239 | See "Otp.VerifyStep outcomes" below the table. |
| Otp.WrongGuessesAreBounded | backend/project/myapp/views.py:220-239 | Take any run of wrong codes against one sent code. None is accepted, every evaluated one is counted in `attempts`, and at most `5 - attempts` are ever evaluated. |
| Otp.SentCodeLifetime | backend/project/myapp/views.py:173 | after a successful send, that code verifies up to and including `now + 5 min`, and is refused as expired at every later instant |
| Otp.LockedOutUntilResend | backend/project/myapp/views.py:220-221 | once 5 failures are recorded and the code has not expired, every code (the right one too) gets 429 and nothing changes |
| Otp.VerifiedCodeIsReusable | backend/project/myapp/views.py:223-226 | a verified code is not consumed: it verifies again at any later instant before its expiry |
| Otp.OtpService.SendOtp | backend/project/myapp/views.py:146-197 | the in-place update of the OTP table and its response are those of `SendStep` |
| Otp.OtpService.VerifyOtp | backend/project/myapp/views.py:201-239 | the in-place update of the OTP and user tables and its response are those of `VerifyStep` |
| Serializers.PhoneFieldValid | backend/project/myapp/serializers.py:8 | the `phone` rule of both serializers: present, non-blank, at most 15 characters, and matching `^\d{10}$` as a whole |
| Serializers.OtpFieldValid | backend/project/myapp/serializers.py:13 | the `otp` rule: present, non-blank, at most 6 characters |
| Serializers.RoleFieldValid | backend/project/myapp/serializers.py:9 | the `role` rule of both serializers: present and one of `get_role_choices()` |
| Serializers.PhoneSerializerValid | backend/project/myapp/serializers.py:7-9 | the send serializer accepts exactly when both its phone and role rules hold |
| Serializers.OtpVerifySerializerValid | backend/project/myapp/serializers.py:11-14 | the verify serializer accepts exactly when its phone, otp and role rules all hold |
| Serializers.MatchesDigitsExactly | backend/project/myapp/serializers.py:8 | `^\d{n}$` matches exactly the strings of n digits |
| Serializers.PhoneFieldExact | backend/project/myapp/serializers.py:7-12 | the phone rule (required, non-blank, `max_length=15`, `^\d{10}$`) accepts exactly the strings of 10 decimal digits |
| Serializers.RoleFieldExact | backend/project/myapp/serializers.py:9-14 | the role rule of both serializers accepts exactly user, driver, conductor and operator |
| Serializers.BookingWritableFields | backend/project/myapp/serializers.py:85-92 | the writable booking fields are exactly `user`, the driver field, `from_address` and `to_address`; the serializer as written names the driver `driver` (`DeclaredDriverField`) |
| Serializers.BookingInput | backend/project/myapp/serializers.py:85-92 | the serializer reads exactly the writable fields of the body, unchanged; `status`, `created_at` and `id` from a client never reach it |
| Serializers.BookingRequiredPresent | backend/project/myapp/serializers.py:86-87 | the serializer's own driver and `user` fields are required: it passes exactly when both are in what the serializer reads |
| Serializers.IdKey | backend/project/myapp/serializers.py:134 | the per-role key `<role>_id` never coincides with `refresh`, `access`, `role` or `name` |
| Serializers.TokensForUser | backend/project/myapp/serializers.py:129-137 | the payload's keys are exactly `refresh`, `access`, `<role>_id`, `role` and `name`, holding the two tokens, the user id, the role and the name |
| Serializers.PayloadHasFiveKeys | backend/project/myapp/serializers.py:129-137 | the payload always has exactly five entries |
| Authentication.RoleClaim | backend/project/myapp/authentication.py:20 | the role claim, `"driver"` when the token carries none |
| Authentication.TableFor | backend/project/myapp/authentication.py:20-25 | Conductor is consulted exactly when the role claim is `"conductor"`; Driver is consulted for a missing or any other role |
| Authentication.GetUser | backend/project/myapp/authentication.py:17-28 | See "Authentication.GetUser outcomes" below the table. |
| Authentication.OnlyChosenTableConsulted | backend/project/myapp/authentication.py:22-25 | the table not chosen has no influence on the result |
| Authentication.NoFallback | backend/project/myapp/authentication.py:27-28 | an id missing from the chosen table is rejected with "User not found", whatever the other table holds |
| Authentication.MissingRoleMeansDriver | backend/project/myapp/authentication.py:20 | a token without a role claim behaves as one with role `"driver"` |
| Tables.Table.Insert | backend/project/myapp/views.py:1145 | a saved new row gets the next key, fresh to the table; the other rows are unchanged and the table stays well formed |
| Tables.Table.Put | backend/project/myapp/views.py:1200 | saving a row replaces only that row; the keys stay the same |
| Tables.Table.First | backend/project/myapp/views.py:252 | `.first()` returns the smallest key whose row matches, or None exactly when no row matches |
| Tables.FirstFrom | backend/project/myapp/views.py:1215 | the scan returns the first matching key of the range, or reports that none in the range matches |
| Fleet.AssignVehicle | backend/project/myapp/views.py:44-58 | a falsy or unknown driver id changes nothing. Otherwise exactly that driver gets `(vehicle_type, vehicle_id)`, and every other field and every other driver stays as it was. |
| Fleet.ClearVehicle | backend/project/myapp/views.py:61-74 | as above, with both fields cleared to None |
| Fleet.SyncDriverChange | backend/project/myapp/views.py:688-698 | See "Fleet.SyncDriverChange outcomes" below the table. |
| Fleet.CreateVehicleStep | backend/project/myapp/views.py:654-667 | an invalid body gives 400 and changes nothing. A valid one inserts the vehicle under a fresh key, answers 201 with that key, points the vehicle's driver at it, and leaves the other tables alone. |
| Fleet.UpdateVehicleStep | backend/project/myapp/views.py:681-703 | an unknown id gives 404 "Bus/Car/Bike not found" and an invalid body 400, each with no change. A valid body replaces the row, moves the driver assignment as `SyncDriverChange` does and answers 200 "Bus/Car/Bike updated successfully". |
| Fleet.UpdateMovesAssignment | backend/project/myapp/views.py:688-698 | after a successful update, a changed new driver points at the vehicle and the previous driver points at nothing; an unchanged driver leaves every driver as it was |
| Fleet.Lower | backend/project/myapp/views.py:1177 | the result has the same length and no capital A–Z: each capital becomes its small letter, and every other character is kept |
| Fleet.LowerIsIdempotent | backend/project/myapp/views.py:1177 | lowering a lowered `vehicle_type` changes nothing |
| Fleet.LowerMatchesCaseVariants | backend/project/myapp/views.py:1177 | a string lowers to a word of small letters exactly when it spells that word with any of its letters capitalised |
| Fleet.CaseVariantSelects | backend/project/myapp/views.py:1177-1212 | a `vehicle_type` selects a vehicle table exactly when it spells that table's name in any mix of ASCII capitals and small letters (`Bus`, `CAR`, `bIkE`); other Unicode case mappings are left out (see `Fleet.Lower`) |
| Fleet.KindNamed | backend/project/myapp/views.py:1206-1212 | exactly `bus`, `car` and `bike` select a vehicle table, the one of that name |
| Fleet.Detect | backend/project/myapp/views.py:1224-1229 | See "Fleet.Detect outcomes" below the table. |
| Fleet.DetectionOrderIsBusCarBike | backend/project/myapp/views.py:1224 | auto-detection picks the driver's first bus, else their first car, else their first bike, else nothing |
| Fleet.MarkBooked | backend/project/myapp/views.py:1217-1218 | only that vehicle's `is_booked` becomes true; every other row and table is unchanged |
| Fleet.AcceptStep | backend/project/myapp/views.py:1201-1233 | See "Fleet.AcceptStep outcomes" below the table. |
| Fleet.StatusStep | backend/project/myapp/views.py:1174-1240 | See "Fleet.StatusStep outcomes" below the table. |
| Fleet.OtherAccepted | backend/project/myapp/views.py:1187-1190 | there is an accepted booking of the same user other than this one |
| Fleet.RejectOnlySetsStatus | backend/project/myapp/views.py:1199-1235 | rejecting an existing booking stores the status `rejected` and changes nothing else |
| Fleet.AcceptStoresStatusFirst | backend/project/myapp/views.py:1185-1200 | an acceptance for a user with another accepted booking gets 400 with no change; otherwise the status is saved before the vehicle is looked up |
| Fleet.AcceptedBookingIsExclusive | backend/project/myapp/views.py:1185-1200 | after an acceptance that was not refused, the booking is accepted and is the only accepted booking of its user |
| Fleet.RenameDriverKey | backend/project/myapp/views.py:1139-1140 | `driver` is moved to `drivers` exactly when `drivers` is absent; any other body is unchanged |
| Fleet.RenameIsIdempotent | backend/project/myapp/views.py:1139-1140 | renaming twice is renaming once |
| Fleet.RenamedDriverNeverReachesSerializer | backend/project/myapp/views.py:1139-1142 | the serializer never sees `drivers`, and sees a `driver` value only when the body carried both keys |
| Fleet.SaveBooking | backend/project/myapp/views.py:1138-1146 | the save writes a row exactly when the serializer's name for the driver is the model's column `drivers`; it then inserts the validated fields with the default status and the creation instant. Any other name makes the model raise and writes nothing. |
| Fleet.CreateBookingWith | backend/project/myapp/views.py:1134-1156 | for a serializer naming the driver by a given field: a body that, once renamed, lacks the required `user` or driver field, or that the serializer refuses, gives 400 with no change. An accepted body whose save raises gives 500 with no change. Otherwise the booking is inserted, the answer is 201 with its key, driver, status and instant, and "at most one accepted booking per user" is kept. |
| Fleet.CreateBookingStep | backend/project/myapp/views.py:1134-1156 | `create_booking` as written never changes the tables. A body the serializer accepts is answered 500, because the save raises; every other body is answered 400. |
| Fleet.IntendedCreateBookingStep | backend/project/myapp/views.py:1134-1156 | with the serializer naming the model's column, every answer is either 201 or 400 with no change; drivers and vehicles never change, and "at most one accepted booking per user" is kept |
| Fleet.DriverOnlyBodyIsRefused | backend/project/myapp/views.py:1139-1143 | a body carrying `driver` but not `drivers` is always answered 400 and changes nothing, whatever the rest of it holds |
| Fleet.BothKeysBodyFailsOnSave | backend/project/myapp/views.py:1139-1156 | a body with `driver`, `drivers` and `user` that the serializer accepts gets 500 and nothing is written |
| Fleet.IntendedDriverOnlyBodyIsCreated | backend/project/myapp/views.py:1138-1152 | with the serializer naming the model's column, a client's `driver` is validated under `drivers`; when accepted, the booking is inserted with the driver the serializer validated from it and answered 201, and when the serializer resolves that driver to the key the client sent, the stored driver is the client's |
| Fleet.CreatedBookingIsPending | backend/project/myapp/views.py:1145-1152 | a created booking is stored under the returned key and is not accepted |
| Fleet.FleetService.UpdateDriverVehicleInfo | backend/project/myapp/views.py:44-58 | the in-place update of the driver table is that of `AssignVehicle` |
| Fleet.FleetService.ClearDriverVehicleInfo | backend/project/myapp/views.py:61-74 | the in-place update of the driver table is that of `ClearVehicle` |
| Fleet.FleetService.CreateVehicle | backend/project/myapp/views.py:654-667 | response and new tables are those of `CreateVehicleStep` |
| Fleet.FleetService.UpdateVehicle | backend/project/myapp/views.py:681-703 | response and new tables are those of `UpdateVehicleStep` |
| Fleet.FleetService.MarkVehicleBooked | backend/project/myapp/views.py:1217-1218 | the new tables are those of `MarkBooked` |
| Fleet.FleetService.UpdateBookingStatus | backend/project/myapp/views.py:1174-1240 | response and new tables are those of `StatusStep` |
| Fleet.FleetService.Accept | backend/project/myapp/views.py:1201-1233 | response and new tables are those of `AcceptStep`; the auto-detection loop is proved to find what `Detect` finds |
| Fleet.FleetService.CreateBooking | backend/project/myapp/views.py:1134-1156 | response and new tables are those of `CreateBookingWith` for the serializer's name for the driver; as written that is `CreateBookingStep`, and with `drivers` it is `IntendedCreateBookingStep` |
| Profiles.ProfileKind.Fields | backend/project/myapp/serializers.py:17-35 | no profile serializer's fields include `user` |
| Profiles.Restrict | backend/project/myapp/serializers.py:17-35 | the serializer keeps exactly the kind's fields of the body, unchanged |
| Profiles.Merge | backend/project/myapp/views.py:255 | a partial update: the fields sent replace the stored ones, and the others keep their values |
| Profiles.UpsertStep | backend/project/myapp/views.py:250-263 | an invalid body gives 400 with no change. With a record present, valid input partially updates the user's first record with the restricted input and answers 200. Without one it creates a record and answers 201. A success returns the data of the row it wrote: the user's first record on 200, the new key's row on 201. |
| Profiles.UpsertKeepsOnePerUser | backend/project/myapp/views.py:252-262 | the handler never gives a user a second record |
| Profiles.CreatedIffNoRecord | backend/project/myapp/views.py:262 | 201 is answered exactly when the user had no record; other users' records are never changed |
| Profiles.UpsertTwiceIsUpsertOnce | backend/project/myapp/views.py:252-262 | sending the same valid body twice leaves the table as sending it once, and the second answer is 200 with the same record |
| Profiles.ProfileTable.Upsert | backend/project/myapp/views.py:311-324 | the in-place update and the response are those of `UpsertStep`, for whichever of the four profile tables the object holds |

**Otp.SendStep outcomes**

- An invalid phone or role gives 400.
- Within 60 s of the last send it gives 429 with the wait `CooldownWait(now - last_sent_at)`, i.e. `60 - int(elapsed)`.
- A failed SMS gives 500.
- Every non-200 answer leaves the table unchanged.
- On 200 only the (phone, role) record is written: a fresh hash of the code, `verified=false`, `attempts=0`, `expires_at=now+5 min`, `last_sent_at=now`.

**Otp.VerifyStep outcomes**

The rejections come in this fixed order:

1. an invalid body gives 400;
2. an unknown (phone, role) gives 404;
3. `now > expires_at` (strictly) gives 400 "OTP expired";
4. `attempts >= 5` gives 429.

None of these writes anything. The 404 and 429 answers carry their fixed messages. Then:

- a matching code gives 200, sets `verified=true` and `attempts=0`, and creates the user;
- a wrong code gives 400 "Invalid OTP" and increments `attempts` by exactly 1, with nothing else changed.

Each condition is stated in both directions.

**Authentication.GetUser outcomes**

- A token without `user_id` gives the missing-claim error.
- A conductor is returned exactly when the role is `"conductor"` and the id is in the Conductor table.
- A driver is returned exactly when the role is anything else and the id is in the Driver table.
- In every other case the result is InvalidToken("User not found").

**Fleet.SyncDriverChange outcomes**

- If the driver is unchanged, no driver row is touched.
- Otherwise the old driver's two fields are cleared and the new driver's are set to (kind, vehicle id).
- Falsy or unknown ids are skipped.
- No other driver changes.

**Fleet.Detect outcomes**

- A hit names a kind in the list, together with that table's first vehicle of the driver's.
- Every kind before the hit has no vehicle of the driver's.
- None means that no table in the list has a vehicle of the driver's.

**Fleet.AcceptStep outcomes**

- For an explicit `bus`, `car` or `bike`, the driver's first vehicle of that table is marked booked (200). If there is none, the answer is 404 with the status kept.
- Any other type auto-detects in the `Detect` order and marks the vehicle found (200). If none is found, the answer is 200 "no vehicle found".

**Fleet.StatusStep outcomes**

1. A `vehicle_type` that is not text gives 500 with no change.
2. A status outside {accepted, rejected} gives 400 before the booking is looked up.
3. An unknown booking gives 404.
4. Every path changes the booking table at most by storing the new status.
5. Drivers never change.
6. "At most one accepted booking per user" is preserved.

## Left out

- The SMS gateway (`send_otp_sms`) is a success/failure input.
- Hashing, token minting, the random draw and the clock are inputs, as described above.
- The model serializers' validity (profiles, vehicles, bookings) is an input. For bookings it yields the validated fields.
- DRF's whitespace trimming, and its Unicode reading of `\d`, are not modelled. Fields are compared as given, with ASCII digits.
- `Otp.WholeSeconds`: this model does not capture the float rounding of `total_seconds()`. It assumes `timedelta` arithmetic is exact to the microsecond.
- `Fleet.Lower`: lowers ASCII letters only. The non-ASCII case mappings of `str.lower` are not modelled.
- `Fleet.CreateVehicleStep`: the bus response's `license_plate` echo is not part of the modelled response body.
- `Fleet.UpdateVehicleStep`: the bus response's `bus_id` echo is not part of the modelled response body.
- `Fleet.CreateBookingWith`: the value of `DefaultBookingStatus` is an assumption. It stands for the model's default status, and the file that declares it (models.py) is not part of this model. The proofs only use that it differs from `accepted`.
- `Fleet.CreateBookingWith`: storing the request's instant as `created_at` is an assumption too. It stands for an `auto_now_add` column, which models.py would declare.
- `Fleet.SaveBooking`: the model's driver column being named `drivers` is taken from views.py lines 1138, 1149, 1170 and 1203, because models.py is not part of this model. Other ways the save could fail (a database error, a missing required column) are not modelled.
- `Profiles.UpsertStep`: a column the client has never sent is absent from the record's map. It stands for that column's model default, in the stored row and in the response body alike. The real `serializer.data` lists every field of the kind, with the defaults filled in. models.py, which declares the defaults, is not part of this model.
- The generic `except Exception` 500 answers are modelled only where the failure is visible in the handler: a non-text `vehicle_type`, the failed SMS, and the booking save that raises (`Fleet.SaveBooking`). Database errors are not modelled.
- The vehicle PUT handlers store the whole validated body (the vehicle serializers use `fields='__all__'`), so they may overwrite `is_booked`. `Fleet.UpdateVehicleStep` stores it as sent. Nothing ties `is_booked` to the bookings, and no handler clears it when a booking ends.
- The read, list and delete handlers, and the route and checkpoint updates, are plain ORM pass-through and are not modelled.
- The DEBUG logging of `send_otp` is not modelled.
- `Tables.Table.First`: `.first()` returns the matching row with the smallest key only when the model declares no `Meta.ordering`. models.py is not part of this model, so this is an assumption.
- The frontend page and the mobile live-location client are not modelled. The client's source is not part of this model.
- Concurrency is not modelled: two simultaneous requests are not considered. Each handler runs as one atomic step on the tables.

## Findings

| source | as written | input that shows it | evidently intended | confidence | as-written member | corrected member |
|---|---|---|---|---|---|---|
| backend/project/myapp/views.py:1138-1146 | `create_booking` renames `driver` to `drivers` to match the model field. `BookingRequestSerializer` (serializers.py lines 86-90) still declares and requires `driver`. A body with only `driver` therefore loses its required field and gets 400. A body with both keys passes validation, but the save passes `driver=` to the model, which raises, so it gets 500. No request can create a booking. | `{"user": "1", "driver": "2"}` gives 400. `{"user": "1", "driver": "2", "drivers": "2", "from_address": "A", "to_address": "B"}` with an existing user and driver gives 500. `Fleet.DriverOnlyBodyIsRefused` and `Fleet.BothKeysBodyFailsOnSave` prove both. | The serializer names the driver `drivers`, the model's column, so a client's `driver` is renamed, validated and saved, answering 201. `Fleet.IntendedDriverOnlyBodyIsCreated` and `Fleet.CreatedBookingIsPending` prove it for the corrected step. | medium, since the column name comes from views.py and models.py is not part of this model; not executed | Fleet.CreateBookingStep | Fleet.IntendedCreateBookingStep |

## Observations

- A verified code is not consumed by `verify_otp`. It can be used again until it expires (`Otp.VerifiedCodeIsReusable`).
