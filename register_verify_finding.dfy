/**
 * Register-verify never consumes a code.
 *
 * RegisterLogin creates the user before it sends the code, and Login only
 * sends codes to registered numbers, so every stored code belongs to an
 * existing user. Register-verify's `get_or_create` therefore always finds the
 * user: it answers "already registered", leaves the code in the cache, and
 * never hands out the user id that completing the registration needs. The
 * intended reading (a matched code is deleted, the caller gets the user id)
 * is `VerifyOtpIntended`.
 */
module RegisterVerifyFinding {
  import opened Format
  import opened TtlCache
  import opened Signin
  import SigninProperties

  /** Every stored code (live or expired) belongs to a registered number. */
  ghost predicate CodesOwned(s: Store) {
    forall m :: m in s.otp ==> m in s.users
  }

  lemma InitOwned(start: int)
    ensures CodesOwned(Init(start))
  {
  }

  /** Every handler keeps codes owned: codes are only stored for numbers that have a user, and users are never removed. */
  lemma HandlersKeepOwned(s: Store, mobile: string, code: string, ip: string, c: string, userId: int, dt: nat)
    requires CodesOwned(s)
    ensures CodesOwned(RegisterLogin(s, mobile, ip, c).after)
    ensures CodesOwned(VerifyOtp(s, mobile, code, ip).after)
    ensures CodesOwned(Login(s, mobile, ip, c).after)
    ensures CodesOwned(VerifyOtpForLogin(s, mobile, code, ip).after)
    ensures CodesOwned(CompleteRegistration(s, userId).after)
    ensures CodesOwned(Tick(s, dt))
  {
  }

  /**
   * As written: once codes are owned, a matching register-verify answers
   * "already registered" and changes nothing, so the code stays usable.
   */
  lemma RegisterVerifyNeverConsumes(s: Store, mobile: string, code: string, ip: string)
    requires CodesOwned(s) && IsValidCode(code) && !IsBlocked(s, ip)
    requires Get(s.otp, mobile, s.now) == Some(code)
    ensures VerifyOtp(s, mobile, code, ip) == Step(s, AlreadyRegistered)
  {
    assert mobile in s.otp;
  }

  /** As written: on an owned store register-verify never answers with a user id. */
  lemma VerifiedNeverAnswered(s: Store, mobile: string, code: string, ip: string)
    requires CodesOwned(s)
    ensures !VerifyOtp(s, mobile, code, ip).outcome.Verified?
  {
    if IsValidCode(code) && !IsBlocked(s, ip) && Get(s.otp, mobile, s.now) == Some(code) {
      RegisterVerifyNeverConsumes(s, mobile, code, ip);
    }
  }

  /**
   * The input that shows it: register 09123456789 from a cleared cache, then
   * submit the code that was sent. The answer is "already registered" with
   * the store unchanged, so the same request succeeds again and again.
   */
  lemma RegisteredCodeIsReusable()
    ensures var s1 := RegisterLogin(Init(0), "09123456789", "10.0.0.1", "123456");
      && s1.outcome == OtpCreated
      && VerifyOtp(s1.after, "09123456789", "123456", "10.0.0.1") == Step(s1.after, AlreadyRegistered)
  {
    var s1 := RegisterLogin(Init(0), "09123456789", "10.0.0.1", "123456");
    assert IsValidMobile("09123456789");
    assert IsValidCode("123456");
    GetAfterSet(map[], "09123456789", "123456", 0, OtpTtl, 0);
  }

  /**
   * Register-verify as evidently intended: a matched code is deleted whether
   * or not the user existed, and the answer carries the user's id (the one
   * `get_or_create` finds or creates).
   */
  function VerifyOtpIntended(s: Store, mobile: string, code: string, ip: string): Step {
    if !IsValidCode(code) then Step(s, BadCode)
    else if IsBlocked(s, ip) then Step(s, Blocked)
    else if Get(s.otp, mobile, s.now) == Some(code) then
      if mobile in s.users then
        Step(s.(otp := Delete(s.otp, mobile)), Verified(s.users[mobile]))
      else
        Step(s.(users := s.users[mobile := s.nextId],
                nextId := s.nextId + 1,
                otp := Delete(s.otp, mobile)),
             Verified(s.nextId))
    else RecordFailure(s, RegisterFlow, ip)
  }

  /**
   * Intended, for a number that already has a user (for instance one whose
   * code came from login): the code is deleted and the answer carries the
   * existing id, never "already registered".
   */
  lemma IntendedExistingUser(s: Store, mobile: string, code: string, ip: string)
    requires IsValidCode(code) && !IsBlocked(s, ip) && Get(s.otp, mobile, s.now) == Some(code)
    requires mobile in s.users
    ensures VerifyOtpIntended(s, mobile, code, ip) ==
      Step(s.(otp := Delete(s.otp, mobile)), Verified(s.users[mobile]))
    ensures VerifyOtpIntended(s, mobile, code, ip).outcome != AlreadyRegistered
  {
  }

  /** Intended: a code accepted once is gone, so the same request then takes the failure path. */
  lemma IntendedIsSingleUse(s: Store, mobile: string, code: string, ip: string)
    requires VerifyOtpIntended(s, mobile, code, ip).outcome.Verified?
    ensures var s1 := VerifyOtpIntended(s, mobile, code, ip).after;
      && VerifyOtpIntended(s1, mobile, code, ip) == RecordFailure(s1, RegisterFlow, ip)
      && VerifyOtpIntended(s1, mobile, code, ip).outcome in {InvalidCode, TooManyAttempts}
  {
    var s1 := VerifyOtpIntended(s, mobile, code, ip).after;
    GetAfterDelete(s.otp, mobile, mobile, s.now);
    assert Get(s1.otp, mobile, s1.now) == None;
  }

  /**
   * Intended: registering a new number and submitting the sent code within
   * 60 seconds answers with the new user's id, and that id is one that
   * completing the registration finds.
   */
  lemma IntendedHandsOutUserId(s: Store, mobile: string, ip: string, c: string, dt: nat)
    requires Valid(s) && IsValidCode(c) && dt < OtpTtl
    requires RegisterLogin(s, mobile, ip, c).outcome == OtpCreated
    ensures var s1 := Tick(RegisterLogin(s, mobile, ip, c).after, dt);
      && VerifyOtpIntended(s1, mobile, c, ip).outcome == Verified(s.nextId)
      && CompleteRegistration(VerifyOtpIntended(s1, mobile, c, ip).after, s.nextId).outcome == Completed
  {
    var s1 := Tick(RegisterLogin(s, mobile, ip, c).after, dt);
    GetAfterSet(s.otp, mobile, c, s.now, OtpTtl, s1.now);
    var s2 := VerifyOtpIntended(s1, mobile, c, ip).after;
    assert s2.users[mobile] == s.nextId;
  }

  /** Intended: the corrected handler keeps both invariants. */
  lemma IntendedKeepsInvariants(s: Store, mobile: string, code: string, ip: string)
    requires Valid(s) && CodesOwned(s)
    ensures Valid(VerifyOtpIntended(s, mobile, code, ip).after)
    ensures CodesOwned(VerifyOtpIntended(s, mobile, code, ip).after)
  {
    if IsValidCode(code) && !IsBlocked(s, ip) {
      if Get(s.otp, mobile, s.now) != Some(code) {
        SigninProperties.RecordFailureKeepsValid(s, RegisterFlow, ip);
      } else if mobile !in s.users {
        SigninProperties.AddUserKeepsIds(s, mobile);
      }
    }
  }

  /** Every routed request keeps codes owned. */
  lemma ApplyKeepsOwned(s: Store, q: Request)
    requires CodesOwned(s)
    ensures CodesOwned(Apply(s, q))
  {
    match q
    case RegisterReq(mobile, ip, code) => HandlersKeepOwned(s, mobile, "", ip, code, 0, 0);
    case VerifyReq(mobile, code, ip) => HandlersKeepOwned(s, mobile, code, ip, "", 0, 0);
    case CompleteReq(userId) => HandlersKeepOwned(s, "", "", "", "", userId, 0);
    case LoginReq(mobile, ip, code) => HandlersKeepOwned(s, mobile, "", ip, code, 0, 0);
    case VerifyLoginReq(mobile, code, ip) => HandlersKeepOwned(s, mobile, code, ip, "", 0, 0);
    case Wait(dt) => HandlersKeepOwned(s, "", "", "", "", 0, dt);
  }

  /** Codes stay owned along any sequence of requests. */
  lemma {:induction false} ReplayKeepsOwned(s: Store, qs: seq<Request>)
    requires CodesOwned(s)
    ensures CodesOwned(Replay(s, qs))
    decreases |qs|
  {
    if qs != [] {
      ApplyKeepsOwned(s, qs[0]);
      ReplayKeepsOwned(Apply(s, qs[0]), qs[1..]);
    }
  }

  /**
   * As written, in every reachable state: whatever requests were served
   * since the cache was cleared, a matching register-verify answers "already
   * registered", deletes nothing and hands out no user id.
   */
  lemma ReachableRegisterVerifyNeverConsumes(start: int, qs: seq<Request>, mobile: string, code: string, ip: string)
    ensures var s := Replay(Init(start), qs);
      && !VerifyOtp(s, mobile, code, ip).outcome.Verified?
      && (IsValidCode(code) && !IsBlocked(s, ip) && Get(s.otp, mobile, s.now) == Some(code) ==>
            VerifyOtp(s, mobile, code, ip) == Step(s, AlreadyRegistered))
  {
    var s := Replay(Init(start), qs);
    ReplayKeepsOwned(Init(start), qs);
    VerifiedNeverAnswered(s, mobile, code, ip);
    if IsValidCode(code) && !IsBlocked(s, ip) && Get(s.otp, mobile, s.now) == Some(code) {
      RegisterVerifyNeverConsumes(s, mobile, code, ip);
    }
  }
}

