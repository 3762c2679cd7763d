/**
 * The OTP sign-in state machine of the account views, on values.
 *
 * A `Store` is everything the handlers read and write: the user table
 * (mobile number -> id), the four key spaces of the cache (`otp_{mobile}`,
 * `fail_{ip}`, `fail_login_{ip}`, `block_{ip}`), the clock and the SMS
 * outbox. Each handler is a function from a store and a request to the next
 * store and an outcome; the `SigninService` class is proved against them.
 */
module Signin {
  import opened Format
  import opened TtlCache

  /** Lifetime of an issued code, in seconds. */
  const OtpTtl: nat := 60
  /** Lifetime of a failure counter, refreshed on every failure. */
  const FailTtl: nat := 3600
  /** Lifetime of an IP block. */
  const BlockTtl: nat := 3600
  /** The failure count at which an IP is blocked. */
  const MaxFailures: nat := 3

  /** One message handed to the SMS channel. */
  datatype Sms = Sms(mobile: string, code: string)

  /** The two verify flows; each has its own failure counter key. */
  datatype Flow = RegisterFlow | LoginFlow

  datatype Store = Store(
    users: map<string, nat>,   // mobile number -> user id (the number is unique)
    nextId: nat,               // the id the user table gives the next new user
    otp: Cache<string>,        // otp_{mobile}
    fail: Cache<nat>,          // fail_{ip}
    failLogin: Cache<nat>,     // fail_login_{ip}
    block: Cache<bool>,        // block_{ip}
    now: int,                  // the clock, in seconds
    outbox: seq<Sms>           // every SMS sent so far
  )

  /** What a handler reports; `Status` gives the HTTP status it is sent with. */
  datatype Outcome =
    | OtpCreated             // register: new user, code sent
    | OtpSent                // login: code sent
    | UserExists             // register: number already has a user
    | NotFound               // login: unregistered number; complete-registration: unknown id
    | BadMobile              // mobile number not 11 numeric characters
    | BadCode                // code not 6 numeric characters
    | Blocked                // the IP was blocked before the request
    | TooManyAttempts        // this failure blocked the IP
    | InvalidCode            // wrong, absent or expired code
    | Verified(userId: nat)  // register-verify created the user
    | AlreadyRegistered      // register-verify: code matched, user existed
    | LoginSuccessful        // login-verify: code matched
    | Completed              // complete-registration: user found

  datatype Step = Step(after: Store, outcome: Outcome)

  function Status(o: Outcome): int {
    match o
    case OtpCreated => 201
    case NotFound => 404
    case BadMobile | BadCode | InvalidCode => 400
    case Blocked | TooManyAttempts => 403
    case _ => 200
  }

  /** An empty user table and an empty cache at time `start`; ids start at 1. */
  function Init(start: int): Store {
    Store(map[], 1, map[], map[], map[], map[], start, [])
  }

  /**
   * What every store the handlers produce satisfies: ids are positive, below
   * `nextId` and unique; every stored code is six digits; failure counters
   * are positive.
   */
  ghost predicate Valid(s: Store) {
    && s.nextId >= 1
    && (forall m :: m in s.users ==> 1 <= s.users[m] < s.nextId)
    && (forall m, m' :: m in s.users && m' in s.users && s.users[m] == s.users[m'] ==> m == m')
    && (forall m :: m in s.otp ==> IsValidCode(s.otp[m].value))
    && (forall ip :: ip in s.fail ==> s.fail[ip].value >= 1)
    && (forall ip :: ip in s.failLogin ==> s.failLogin[ip].value >= 1)
  }

  /** `cache.get(f"block_{ip}")` is truthy. */
  predicate IsBlocked(s: Store, ip: string) {
    Get(s.block, ip, s.now) == Some(true)
  }

  /** The failure counter of a flow. */
  function Counter(s: Store, flow: Flow): Cache<nat> {
    if flow == RegisterFlow then s.fail else s.failLogin
  }

  /** `cache.get(fail_key) or 0`. */
  function FailureCount(s: Store, flow: Flow, ip: string): nat {
    GetOr(Counter(s, flow), ip, s.now, 0)
  }

  /** Time passes. */
  function Tick(s: Store, dt: nat): Store {
    s.(now := s.now + dt)
  }

  /**
   * The failure branch shared by both verify flows: increment the flow's
   * counter (absent counts as 0), write it back with a fresh hour, and on the
   * third failure block the IP for an hour and answer 403 at once.
   */
  function RecordFailure(s: Store, flow: Flow, ip: string): Step {
    var n := FailureCount(s, flow, ip) + 1;
    var s1 := if flow == RegisterFlow then s.(fail := Set(s.fail, ip, n, s.now, FailTtl))
              else s.(failLogin := Set(s.failLogin, ip, n, s.now, FailTtl));
    if n >= MaxFailures then Step(s1.(block := Set(s1.block, ip, true, s.now, BlockTtl)), TooManyAttempts)
    else Step(s1, InvalidCode)
  }

  /** RegisterLoginView.post; `code` is the value `generate_otp` returned. */
  function RegisterLogin(s: Store, mobile: string, ip: string, code: string): Step {
    if !IsValidMobile(mobile) then Step(s, BadMobile)
    else if IsBlocked(s, ip) then Step(s, Blocked)
    else if mobile in s.users then Step(s, UserExists)
    else
      Step(s.(users := s.users[mobile := s.nextId],
              nextId := s.nextId + 1,
              outbox := s.outbox + [Sms(mobile, code)],
              otp := Set(s.otp, mobile, code, s.now, OtpTtl)),
           OtpCreated)
  }

  /**
   * VerifyOTPView.post, as written: on a match `get_or_create` either finds
   * the user (answer "already registered", the code stays) or creates one
   * (delete the code, answer with the new id).
   */
  function VerifyOtp(s: Store, mobile: string, code: string, ip: string): Step {
    if !IsValidCode(code) then Step(s, BadCode)
    else if IsBlocked(s, ip) then Step(s, Blocked)
    else if Get(s.otp, mobile, s.now) == Some(code) then
      if mobile in s.users then Step(s, AlreadyRegistered)
      else
        Step(s.(users := s.users[mobile := s.nextId],
                nextId := s.nextId + 1,
                otp := Delete(s.otp, mobile)),
             Verified(s.nextId))
    else RecordFailure(s, RegisterFlow, ip)
  }

  /** CompleteRegistrationView.put, its not-found check only. */
  function CompleteRegistration(s: Store, userId: int): Step {
    if exists m :: m in s.users && s.users[m] == userId then Step(s, Completed)
    else Step(s, NotFound)
  }

  /** LoginView.post; `code` is the value `generate_otp` returned. */
  function Login(s: Store, mobile: string, ip: string, code: string): Step {
    if !IsValidMobile(mobile) then Step(s, BadMobile)
    else if IsBlocked(s, ip) then Step(s, Blocked)
    else if mobile !in s.users then Step(s, NotFound)
    else
      Step(s.(outbox := s.outbox + [Sms(mobile, code)],
              otp := Set(s.otp, mobile, code, s.now, OtpTtl)),
           OtpSent)
  }

  /** VerifyOTPForLoginView.post. */
  function VerifyOtpForLogin(s: Store, mobile: string, code: string, ip: string): Step {
    if !IsValidCode(code) then Step(s, BadCode)
    else if IsBlocked(s, ip) then Step(s, Blocked)
    else if Get(s.otp, mobile, s.now) == Some(code) then
      Step(s.(otp := Delete(s.otp, mobile)), LoginSuccessful)
    else RecordFailure(s, LoginFlow, ip)
  }

  /** The verify handler of a flow. */
  function Verify(s: Store, flow: Flow, mobile: string, code: string, ip: string): Step {
    if flow == RegisterFlow then VerifyOtp(s, mobile, code, ip) else VerifyOtpForLogin(s, mobile, code, ip)
  }

  /**
   * One request to one of the routed views. The register and login requests
   * carry the code `generate_otp` returned for them; `Wait` lets time pass
   * between requests.
   */
  datatype Request =
    | RegisterReq(mobile: string, ip: string, code: string)
    | VerifyReq(mobile: string, code: string, ip: string)
    | CompleteReq(userId: int)
    | LoginReq(mobile: string, ip: string, code: string)
    | VerifyLoginReq(mobile: string, code: string, ip: string)
    | Wait(dt: nat)

  /** The codes the generator hands to register and login requests are six digits. */
  predicate Generated(q: Request) {
    (q.RegisterReq? || q.LoginReq?) ==> IsValidCode(q.code)
  }

  /** The store after routing a request to its handler (or letting time pass). */
  function Apply(s: Store, q: Request): Store {
    match q
    case RegisterReq(mobile, ip, code) => RegisterLogin(s, mobile, ip, code).after
    case VerifyReq(mobile, code, ip) => VerifyOtp(s, mobile, code, ip).after
    case CompleteReq(userId) => CompleteRegistration(s, userId).after
    case LoginReq(mobile, ip, code) => Login(s, mobile, ip, code).after
    case VerifyLoginReq(mobile, code, ip) => VerifyOtpForLogin(s, mobile, code, ip).after
    case Wait(dt) => Tick(s, dt)
  }

  /** The store after serving the requests one after another. */
  function Replay(s: Store, qs: seq<Request>): Store
    decreases |qs|
  {
    if qs == [] then s else Replay(Apply(s, qs[0]), qs[1..])
  }
}
