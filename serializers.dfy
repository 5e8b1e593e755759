/** The field rules of the serializers the core views use (backend/project/myapp/serializers.py),
    and the token payload returned at login. Input fields arrive as optional strings: `None`
    is a field missing from the request body. */
module Serializers {
  import opened Wrappers
  import opened Decimal
  import opened Foreign
  import Constants

  const PhoneMaxLength: nat := 15
  const PhoneDigitCount: nat := 10
  const OtpMaxLength: nat := 6

  /** Whether `s` as a whole matches `\d{n}`, the pattern anchored at both ends. */
  function MatchesDigits(s: string, n: nat): bool {
    if s == [] then n == 0 else n > 0 && IsDigit(s[0]) && MatchesDigits(s[1..], n - 1)
  }

  lemma {:induction false} MatchesDigitsExactly(s: string, n: nat)
    ensures MatchesDigits(s, n) <==> |s| == n && AllDigits(s)
  {
    if s != [] && n > 0 {
      MatchesDigitsExactly(s[1..], n - 1);
      if |s| == n && AllDigits(s) {
        assert AllDigits(s[1..]) by {
          forall i | 0 <= i < |s[1..]| ensures IsDigit(s[1..][i]) { assert s[1..][i] == s[i + 1]; }
        }
      }
      if MatchesDigits(s, n) {
        forall i | 0 <= i < |s| ensures IsDigit(s[i]) {
          if i > 0 { assert s[i] == s[1..][i - 1]; }
        }
      }
    }
  }

  /** `RegexField(regex=r"^\d{10}$", max_length=15)`: required, not blank, at most 15
      characters, and matching the pattern. */
  predicate PhoneFieldValid(v: Option<string>) {
    v.Some? && v.value != "" && |v.value| <= PhoneMaxLength && MatchesDigits(v.value, PhoneDigitCount)
  }

  /** The phone rule amounts to: exactly ten decimal digits. */
  lemma PhoneFieldExact(v: Option<string>)
    ensures PhoneFieldValid(v) <==> v.Some? && |v.value| == 10 && AllDigits(v.value)
  {
    if v.Some? { MatchesDigitsExactly(v.value, PhoneDigitCount); }
  }

  /** `CharField(max_length=6)`: required, not blank, at most six characters. */
  predicate OtpFieldValid(v: Option<string>) {
    v.Some? && v.value != "" && |v.value| <= OtpMaxLength
  }

  /** `ChoiceField(choices=get_role_choices())`. */
  predicate RoleFieldValid(v: Option<string>) {
    v.Some? && v.value in Constants.GetRoleChoices()
  }

  /** The role rule, shared by both serializers, admits exactly the four role values. */
  lemma RoleFieldExact(v: Option<string>)
    ensures RoleFieldValid(v) <==> v.Some? && v.value in {"user", "driver", "conductor", "operator"}
  {
    Constants.RoleValues();
  }

  /** `PhoneSerializer(data=...).is_valid()`. */
  predicate PhoneSerializerValid(phone: Option<string>, role: Option<string>) {
    PhoneFieldValid(phone) && RoleFieldValid(role)
  }

  /** `OTPVerifySerializer(data=...).is_valid()`. */
  predicate OtpVerifySerializerValid(phone: Option<string>, otp: Option<string>, role: Option<string>) {
    PhoneFieldValid(phone) && OtpFieldValid(otp) && RoleFieldValid(role)
  }

  /** The name under which `BookingRequestSerializer` declares the booked driver. */
  const DeclaredDriverField: string := "driver"

  /** `Meta.fields` of the booking serializer, the driver named `driverField`. */
  function BookingFields(driverField: string): seq<string> {
    ["id", "user", driverField, "from_address", "to_address", "status", "created_at"]
  }

  /** `Meta.read_only_fields`; the auto primary key `id` is read-only as well. */
  const BookingReadOnlyFields: set<string> := {"id", "status", "created_at"}

  function BookingWritableFields(driverField: string): (w: set<string>)
    requires driverField !in BookingReadOnlyFields
    ensures w == {"user", driverField, "from_address", "to_address"}
  {
    (set f | f in BookingFields(driverField)) - BookingReadOnlyFields
  }

  /** The part of a request body the booking serializer reads: its writable fields, unchanged.
      Read-only fields the client sends are dropped, so client input never sets them. */
  function BookingInput(driverField: string, data: map<string, string>): (r: map<string, string>)
    requires driverField !in BookingReadOnlyFields
    ensures r.Keys == data.Keys * BookingWritableFields(driverField)
    ensures forall k :: k in r ==> r[k] == data[k]
    ensures "status" !in r && "created_at" !in r && "id" !in r
  {
    map k | k in data && k in BookingWritableFields(driverField) :: data[k]
  }

  /** The required-field check on what the serializer reads: its two declared fields, the
      user and the driver, are `PrimaryKeyRelatedField`s without `required=False`, so a body
      lacking either is refused whatever the model says. */
  function BookingRequiredPresent(driverField: string, input: map<string, string>): (ok: bool)
    ensures ok <==> "user" in input && driverField in input
  {
    {"user", driverField} <= input.Keys
  }

  /** A value of the token payload. */
  datatype Claim = Text(text: string) | Number(number: int)

  /** The per-role id key, `f'{role}_id'`. */
  function IdKey(role: string): (k: string)
    ensures k !in {"refresh", "access", "role", "name"}
  {
    var k := role + "_id";
    assert k[|k| - 1] == 'd';
    k
  }

  /** `generate_tokens_for_user(user, role)`, given the minted refresh/access pair. */
  function TokensForUser(userId: int, name: string, role: string, minted: TokenPair): (r: map<string, Claim>)
    ensures r.Keys == {"refresh", "access", IdKey(role), "role", "name"}
    ensures r["refresh"] == Text(minted.refresh) && r["access"] == Text(minted.access)
    ensures r[IdKey(role)] == Number(userId) && r["role"] == Text(role) && r["name"] == Text(name)
  {
    map["refresh" := Text(minted.refresh), "access" := Text(minted.access),
        IdKey(role) := Number(userId), "role" := Text(role), "name" := Text(name)]
  }

  /** The payload has exactly five entries: the per-role key never collides with the others. */
  lemma PayloadHasFiveKeys(userId: int, name: string, role: string, minted: TokenPair)
    ensures |TokensForUser(userId, name, role, minted)| == 5
  {
    var fixed: set<string> := {"refresh", "access", "role", "name"};
    assert |fixed| == 4;
    assert IdKey(role) !in fixed;
    assert TokensForUser(userId, name, role, minted).Keys == fixed + {IdKey(role)};
  }
}
