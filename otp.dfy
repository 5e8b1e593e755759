/** Phone-number login by one-time code: `generate_otp`, `send_otp` and `verify_otp`
    (backend/project/myapp/views.py). One record per (phone, role) holds the hashed code,
    whether it was verified, the count of failed attempts, the expiry instant and the
    instant the code was last sent. Instants are integer microseconds, the resolution of
    Django's datetimes; the clock reading, the random draw, the hasher's salt and the
    outcome of the SMS gateway are inputs. */
module Otp {
  import opened Wrappers
  import opened Decimal
  import opened Foreign
  import opened Http
  import Serializers

  type Instant = int

  const MicrosPerSecond: int := 1000000
  const CooldownSeconds: int := 60
  const ExpiryMinutes: int := 5
  const ExpiryMicros: int := ExpiryMinutes * 60 * MicrosPerSecond
  const MaxAttempts: nat := 5

  const OtpSent: string := "OTP sent successfully"
  const PhoneNotFound: string := "Phone number not found for this role"
  const OtpExpired: string := "OTP expired"
  const TooManyAttempts: string := "Too many attempts, please request a new OTP"
  const InvalidOtp: string := "Invalid OTP"

  /** What `random.randint(1000, 9999)` can return (both ends included). */
  type OtpDraw = n: int | 1000 <= n <= 9999 witness 1000

  /** `generate_otp()`: the decimal numeral of the draw, four digits with no leading zero. */
  function GenerateOtp(draw: OtpDraw): (code: string)
    ensures |code| == 4 && AllDigits(code) && code[0] != '0'
    ensures DecimalValue(code) == draw
  {
    FourDigitNumeral(draw);
    DecimalRoundTrip(draw);
    NatToDecimal(draw)
  }

  /** A code generated this way always passes the verify serializer's length rule. */
  lemma GeneratedCodeFitsField(draw: OtpDraw)
    ensures Serializers.OtpFieldValid(Some(GenerateOtp(draw)))
  {
  }

  /** (phone, role): the lookup key of `PhoneOTP`. */
  type OtpKey = (string, string)

  datatype OtpRecord = OtpRecord(
    otp: Digest,
    verified: bool,
    attempts: nat,
    expiresAt: Option<Instant>,
    lastSentAt: Option<Instant>)

  /** The `PhoneOTP` table, and the usernames of Django's `User` table. */
  datatype OtpState = OtpState(records: map<OtpKey, OtpRecord>, users: set<string>)

  /** The response an endpoint returns and the state it leaves behind. */
  datatype Step = Step(response: Response, state: OtpState)

  datatype SendRequest = SendRequest(phone: Option<string>, role: Option<string>)
  datatype VerifyRequest = VerifyRequest(phone: Option<string>, otp: Option<string>, role: Option<string>)

  /** `int(delta.total_seconds())` for a time difference of `delta` microseconds: whole
      seconds, truncated toward zero. */
  function WholeSeconds(delta: int): (s: int)
    ensures delta >= 0 ==> s * MicrosPerSecond <= delta < (s + 1) * MicrosPerSecond
    ensures delta < 0 ==> (s - 1) * MicrosPerSecond < delta <= s * MicrosPerSecond
  {
    if delta >= 0 then delta / MicrosPerSecond else -((-delta) / MicrosPerSecond)
  }

  /** `existing.last_sent_at and (now - existing.last_sent_at).total_seconds() < 60`. */
  predicate InCooldown(rec: OtpRecord, now: Instant) {
    rec.lastSentAt.Some? && now - rec.lastSentAt.value < CooldownSeconds * MicrosPerSecond
  }

  /** `wait = 60 - int(elapsed)`: at least one second; on a clock that has not gone
      backwards it is at most 60 and is the remaining cooldown rounded up to whole seconds. */
  function CooldownWait(elapsed: int): (wait: int)
    requires elapsed < CooldownSeconds * MicrosPerSecond
    ensures wait >= 1
    ensures elapsed > -MicrosPerSecond ==> wait <= CooldownSeconds
    ensures elapsed >= 0 ==>
      (wait - 1) * MicrosPerSecond < CooldownSeconds * MicrosPerSecond - elapsed <= wait * MicrosPerSecond
  {
    CooldownSeconds - WholeSeconds(elapsed)
  }

  /** `user_otp.expires_at and now > user_otp.expires_at`. */
  predicate Expired(rec: OtpRecord, now: Instant) {
    rec.expiresAt.Some? && now > rec.expiresAt.value
  }

  /** The record `update_or_create` leaves for a code sent at `now`. */
  predicate FreshlyIssued(rec: OtpRecord, code: string, salt: Salt, now: Instant) {
    && !rec.verified
    && rec.attempts == 0
    && rec.expiresAt == Some(now + ExpiryMicros)
    && rec.lastSentAt == Some(now)
    && rec.otp == MakePassword(code, salt)
  }

  /** `send_otp`: validate, refuse within the 60 s cooldown, send the SMS, and only once the
      send has succeeded upsert the record for (phone, role). */
  function SendStep(st: OtpState, req: SendRequest, draw: OtpDraw, salt: Salt, now: Instant, smsDelivered: bool): (r: Step)
    ensures r.state.users == st.users
    ensures r.response.status in {Ok, BadRequest, TooManyRequests, InternalError}
    ensures r.response.status != Ok ==> r.state == st
    ensures r.response.status == BadRequest <==> !Serializers.PhoneSerializerValid(req.phone, req.role)
    ensures r.response.status == BadRequest ==> r == Step(Response(BadRequest, ValidationErrors), st)
    ensures r.response.status == InternalError ==> r == Step(Response(InternalError, ServerError), st)
    ensures Serializers.PhoneSerializerValid(req.phone, req.role) ==>
      var key := (req.phone.value, req.role.value);
      && (r.response.status == TooManyRequests <==> key in st.records && InCooldown(st.records[key], now))
      && (r.response.status == InternalError <==> !(key in st.records && InCooldown(st.records[key], now)) && !smsDelivered)
      && (r.response.status == TooManyRequests ==>
            r.response.body == Cooldown(CooldownWait(now - st.records[key].lastSentAt.value)) &&
            r.response.body.wait >= 1 &&
            (now >= st.records[key].lastSentAt.value ==> r.response.body.wait <= CooldownSeconds))
      && (r.response.status == Ok ==>
            && r.response.body == Message(OtpSent)
            && r.state.records.Keys == st.records.Keys + {key}
            && FreshlyIssued(r.state.records[key], GenerateOtp(draw), salt, now)
            && forall k :: k in st.records && k != key ==> r.state.records[k] == st.records[k])
  {
    if !Serializers.PhoneSerializerValid(req.phone, req.role) then
      Step(Response(BadRequest, ValidationErrors), st)
    else
      var key := (req.phone.value, req.role.value);
      var code := GenerateOtp(draw);
      if key in st.records && InCooldown(st.records[key], now) then
        Step(Response(TooManyRequests, Cooldown(CooldownWait(now - st.records[key].lastSentAt.value))), st)
      else if !smsDelivered then
        Step(Response(InternalError, ServerError), st)
      else
        var rec := OtpRecord(MakePassword(code, salt), false, 0, Some(now + ExpiryMicros), Some(now));
        Step(Response(Ok, Message(OtpSent)), st.(records := st.records[key := rec]))
  }

  /** `verify_otp`: the rejections come in a fixed order (unknown key, expired, locked out)
      and write nothing; a matching code marks the record verified and clears the failure
      count, a wrong one adds one failure and changes nothing else. */
  function VerifyStep(st: OtpState, req: VerifyRequest, now: Instant, tokens: TokenPair): (r: Step)
    ensures r.state.records.Keys == st.records.Keys
    ensures r.response.status in {Ok, BadRequest, NotFound, TooManyRequests}
    ensures r.response.status != Ok && r.response.body != Error(InvalidOtp) ==> r.state == st
    ensures !Serializers.OtpVerifySerializerValid(req.phone, req.otp, req.role) ==>
      r == Step(Response(BadRequest, ValidationErrors), st)
    ensures Serializers.OtpVerifySerializerValid(req.phone, req.otp, req.role) ==>
      var key := (req.phone.value, req.role.value);
      && (r.response.status == NotFound <==> key !in st.records)
      && (key !in st.records ==> r == Step(Response(NotFound, Error(PhoneNotFound)), st))
      && (key in st.records ==>
            var rec := st.records[key];
            && (r.response == Response(BadRequest, Error(OtpExpired)) <==> Expired(rec, now))
            && (r.response.status == TooManyRequests <==> !Expired(rec, now) && rec.attempts >= MaxAttempts)
            && (r.response.status == TooManyRequests ==> r == Step(Response(TooManyRequests, Error(TooManyAttempts)), st))
            && (Expired(rec, now) ==> r.state == st)
            && (r.response.status == Ok <==>
                  !Expired(rec, now) && rec.attempts < MaxAttempts && CheckPassword(req.otp.value, rec.otp))
            && (r.response.body == Error(InvalidOtp) <==>
                  !Expired(rec, now) && rec.attempts < MaxAttempts && !CheckPassword(req.otp.value, rec.otp))
            && (r.response.status == Ok ==>
                  && r.response.body == OtpVerified(tokens, req.role.value)
                  && r.state.records == st.records[key := rec.(verified := true, attempts := 0)]
                  && r.state.users == st.users + {req.phone.value})
            && (r.response.body == Error(InvalidOtp) ==>
                  && r.response.status == BadRequest
                  && r.state.records == st.records[key := rec.(attempts := rec.attempts + 1)]
                  && r.state.users == st.users))
  {
    if !Serializers.OtpVerifySerializerValid(req.phone, req.otp, req.role) then
      Step(Response(BadRequest, ValidationErrors), st)
    else
      var key := (req.phone.value, req.role.value);
      if key !in st.records then
        Step(Response(NotFound, Error(PhoneNotFound)), st)
      else
        var rec := st.records[key];
        if Expired(rec, now) then
          Step(Response(BadRequest, Error(OtpExpired)), st)
        else if rec.attempts >= MaxAttempts then
          Step(Response(TooManyRequests, Error(TooManyAttempts)), st)
        else if CheckPassword(req.otp.value, rec.otp) then
          var verified := rec.(verified := true, attempts := 0);
          Step(Response(Ok, OtpVerified(tokens, req.role.value)),
               OtpState(st.records[key := verified], st.users + {req.phone.value}))
        else
          Step(Response(BadRequest, Error(InvalidOtp)),
               st.(records := st.records[key := rec.(attempts := rec.attempts + 1)]))
  }

  /** One verification attempt: the code typed and the instant it reached the server. */
  datatype Attempt = Attempt(otp: string, at: Instant)

  /** A run of verification attempts for one (phone, role), with no code sent in between. */
  function VerifyAll(st: OtpState, phone: string, role: string, attempts: seq<Attempt>, tokens: TokenPair): (r: (OtpState, seq<Response>))
    ensures |r.1| == |attempts|
    decreases |attempts|
  {
    if attempts == [] then (st, [])
    else
      var s := VerifyStep(st, VerifyRequest(Some(phone), Some(attempts[0].otp), Some(role)), attempts[0].at, tokens);
      var rest := VerifyAll(s.state, phone, role, attempts[1..], tokens);
      (rest.0, [s.response] + rest.1)
  }

  /** The number of "Invalid OTP" answers, i.e. wrong guesses the server evaluated. */
  function CountWrongGuesses(rs: seq<Response>): nat {
    if rs == [] then 0
    else (if rs[0].body == Error(InvalidOtp) then 1 else 0) + CountWrongGuesses(rs[1..])
  }

  /** Brute-force bound: against one sent code, however many wrong codes are tried, at most
      five are ever evaluated, none of them succeeds, and each one is recorded. */
  lemma {:induction false} WrongGuessesAreBounded(st: OtpState, phone: string, role: string,
                                                  attempts: seq<Attempt>, tokens: TokenPair)
    requires (phone, role) in st.records
    requires forall i :: 0 <= i < |attempts| ==> !CheckPassword(attempts[i].otp, st.records[(phone, role)].otp)
    ensures var r := VerifyAll(st, phone, role, attempts, tokens);
      && (phone, role) in r.0.records
      && r.0.records[(phone, role)].otp == st.records[(phone, role)].otp
      && r.0.records[(phone, role)].attempts == st.records[(phone, role)].attempts + CountWrongGuesses(r.1)
      && CountWrongGuesses(r.1) <= (if st.records[(phone, role)].attempts >= MaxAttempts then 0
                                    else MaxAttempts - st.records[(phone, role)].attempts)
      && forall i :: 0 <= i < |r.1| ==> r.1[i].status != Ok
    decreases |attempts|
  {
    var key := (phone, role);
    if attempts != [] {
      var s := VerifyStep(st, VerifyRequest(Some(phone), Some(attempts[0].otp), Some(role)), attempts[0].at, tokens);
      assert s.state.records[key].otp == st.records[key].otp;
      forall i | 0 <= i < |attempts[1..]|
        ensures !CheckPassword(attempts[1..][i].otp, s.state.records[key].otp)
      {
        assert attempts[1..][i] == attempts[i + 1];
      }
      WrongGuessesAreBounded(s.state, phone, role, attempts[1..], tokens);
      var rest := VerifyAll(s.state, phone, role, attempts[1..], tokens);
      var r := VerifyAll(st, phone, role, attempts, tokens);
      assert r.1 == [s.response] + rest.1;
      assert r.1[1..] == rest.1;
      if s.response.body == Error(InvalidOtp) {
        assert s.state.records[key].attempts == st.records[key].attempts + 1;
      } else {
        assert s.state == st;
      }
      forall i | 0 <= i < |r.1| ensures r.1[i].status != Ok {
        if i > 0 { assert r.1[i] == rest.1[i - 1]; }
      }
    }
  }

  /** After a successful send, the code just sent is accepted up to and including the expiry
      instant and refused as expired from the next microsecond on, whatever the old record held. */
  lemma {:induction false} SentCodeLifetime(st: OtpState, req: SendRequest, draw: OtpDraw, salt: Salt,
                                            now: Instant, later: Instant, tokens: TokenPair)
    requires SendStep(st, req, draw, salt, now, true).response.status == Ok
    ensures var sent := SendStep(st, req, draw, salt, now, true).state;
      var v := VerifyStep(sent, VerifyRequest(req.phone, Some(GenerateOtp(draw)), req.role), later, tokens);
      && (later <= now + ExpiryMicros ==> v.response.status == Ok)
      && (later > now + ExpiryMicros ==> v.response == Response(BadRequest, Error(OtpExpired)))
  {
    var sent := SendStep(st, req, draw, salt, now, true).state;
    var key := (req.phone.value, req.role.value);
    assert FreshlyIssued(sent.records[key], GenerateOtp(draw), salt, now);
    CheckMakePassword(GenerateOtp(draw), GenerateOtp(draw), salt);
    assert Serializers.OtpVerifySerializerValid(req.phone, Some(GenerateOtp(draw)), req.role);
  }

  /** Once five failures are recorded, even the right code is refused with 429 and nothing
      changes; a successful send of a new code is what clears the count. */
  lemma LockedOutUntilResend(st: OtpState, req: VerifyRequest, now: Instant, tokens: TokenPair)
    requires Serializers.OtpVerifySerializerValid(req.phone, req.otp, req.role)
    requires (req.phone.value, req.role.value) in st.records
    requires st.records[(req.phone.value, req.role.value)].attempts >= MaxAttempts
    requires !Expired(st.records[(req.phone.value, req.role.value)], now)
    ensures VerifyStep(st, req, now, tokens) == Step(Response(TooManyRequests, Error(TooManyAttempts)), st)
  {
  }

  /** A verified code is not consumed: until it expires, the same code verifies again. */
  lemma {:induction false} VerifiedCodeIsReusable(st: OtpState, req: VerifyRequest, now: Instant, later: Instant,
                                                  tokens: TokenPair, tokens': TokenPair)
    requires VerifyStep(st, req, now, tokens).response.status == Ok
    requires !Expired(st.records[(req.phone.value, req.role.value)], later)
    ensures VerifyStep(VerifyStep(st, req, now, tokens).state, req, later, tokens').response.status == Ok
  {
    var key := (req.phone.value, req.role.value);
    var s := VerifyStep(st, req, now, tokens).state;
    assert s.records[key] == st.records[key].(verified := true, attempts := 0);
  }

  /** The service object: the two tables as fields, updated in place by the two endpoints. */
  class OtpService {
    var records: map<OtpKey, OtpRecord>
    var users: set<string>

    constructor()
      ensures records == map[] && users == {}
    {
      records := map[];
      users := {};
    }

    function State(): OtpState
      reads this
    {
      OtpState(records, users)
    }

    method SendOtp(req: SendRequest, draw: OtpDraw, salt: Salt, now: Instant, smsDelivered: bool)
      returns (response: Response)
      modifies this
      ensures Step(response, State()) == SendStep(old(State()), req, draw, salt, now, smsDelivered)
    {
      if !Serializers.PhoneSerializerValid(req.phone, req.role) {
        return Response(BadRequest, ValidationErrors);
      }
      var phone, role := req.phone.value, req.role.value;
      var code := GenerateOtp(draw);
      if (phone, role) in records {
        var existing := records[(phone, role)];
        if existing.lastSentAt.Some? && now - existing.lastSentAt.value < CooldownSeconds * MicrosPerSecond {
          var wait := CooldownWait(now - existing.lastSentAt.value);
          return Response(TooManyRequests, Cooldown(wait));
        }
      }
      if !smsDelivered {
        return Response(InternalError, ServerError);
      }
      records := records[(phone, role) := OtpRecord(MakePassword(code, salt), false, 0,
                                                     Some(now + ExpiryMicros), Some(now))];
      response := Response(Ok, Message(OtpSent));
    }

    method VerifyOtp(req: VerifyRequest, now: Instant, tokens: TokenPair) returns (response: Response)
      modifies this
      ensures Step(response, State()) == VerifyStep(old(State()), req, now, tokens)
    {
      if !Serializers.OtpVerifySerializerValid(req.phone, req.otp, req.role) {
        return Response(BadRequest, ValidationErrors);
      }
      var phone, otp, role := req.phone.value, req.otp.value, req.role.value;
      if (phone, role) !in records {
        return Response(NotFound, Error(PhoneNotFound));
      }
      var userOtp := records[(phone, role)];
      if userOtp.expiresAt.Some? && now > userOtp.expiresAt.value {
        return Response(BadRequest, Error(OtpExpired));
      }
      if userOtp.attempts >= MaxAttempts {
        return Response(TooManyRequests, Error(TooManyAttempts));
      }
      if CheckPassword(otp, userOtp.otp) {
        records := records[(phone, role) := userOtp.(verified := true, attempts := 0)];
        users := users + {phone};
        return Response(Ok, OtpVerified(tokens, role));
      }
      records := records[(phone, role) := userOtp.(attempts := userOtp.attempts + 1)];
      response := Response(BadRequest, Error(InvalidOtp));
    }
  }
}
