/**
 * The sign-in views as an object over the shared cache and the user table:
 * each handler updates the fields step by step, as the view does, and is
 * proved to leave exactly the store that the matching `Signin` function
 * describes, keeping the store invariant.
 */
module SigninService {
  import opened Format
  import opened TtlCache
  import opened Signin
  import SigninProperties

  /** `generate_otp`: six digits, each chosen independently (`random.randint(0, 9)`). */
  method GenerateOtp() returns (code: string)
    ensures IsValidCode(code)
  {
    code := "";
    for i := 0 to CodeLength
      invariant |code| == i
      invariant forall j :: 0 <= j < i ==> IsDigit(code[j])
    {
      var d: int :| 0 <= d <= 9;
      var ch := ('0' as int + d) as char;
      DigitsSnoc(code, ch);
      code := code + [ch];
    }
  }

  class Service {
    var users: map<string, nat>
    var nextId: nat
    var otp: Cache<string>
    var fail: Cache<nat>
    var failLogin: Cache<nat>
    var block: Cache<bool>
    var now: int
    var outbox: seq<Sms>

    /** The fields as a `Signin.Store` value. */
    function Snapshot(): Store
      reads this
    {
      Store(users, nextId, otp, fail, failLogin, block, now, outbox)
    }

    ghost predicate Valid()
      reads this
    {
      Signin.Valid(Snapshot())
    }

    /** An empty user table and a cleared cache, with the clock at `start`. */
    constructor (start: int)
      ensures Valid() && Snapshot() == Init(start)
    {
      users, nextId := map[], 1;
      otp, fail, failLogin, block := map[], map[], map[], map[];
      now, outbox := start, [];
    }

    /** Time passes; entries whose lifetime ends meanwhile become invisible. */
    method Advance(dt: nat)
      requires Valid()
      modifies this
      ensures Valid() && Snapshot() == Tick(old(Snapshot()), dt)
    {
      now := now + dt;
    }

    /** The failure branch of both verify views: read, increment and write back the flow's counter. */
    method RecordFailure(flow: Flow, ip: string) returns (o: Outcome)
      requires Valid()
      modifies this
      ensures Valid()
      ensures Step(Snapshot(), o) == Signin.RecordFailure(old(Snapshot()), flow, ip)
    {
      SigninProperties.RecordFailureKeepsValid(Snapshot(), flow, ip);
      var count := GetOr(if flow == RegisterFlow then fail else failLogin, ip, now, 0);
      count := count + 1;
      if flow == RegisterFlow {
        fail := Set(fail, ip, count, now, FailTtl);
      } else {
        failLogin := Set(failLogin, ip, count, now, FailTtl);
      }
      if count >= MaxFailures {
        block := Set(block, ip, true, now, BlockTtl);
        o := TooManyAttempts;
      } else {
        o := InvalidCode;
      }
    }

    /** RegisterLoginView.post; `code` is the code generated and sent, if any. */
    method RegisterLogin(mobile: string, ip: string) returns (o: Outcome, ghost code: string)
      requires Valid()
      modifies this
      ensures Valid() && IsValidCode(code)
      ensures Step(Snapshot(), o) == Signin.RegisterLogin(old(Snapshot()), mobile, ip, code)
    {
      code := "000000";
      if !IsValidMobile(mobile) {
        o := BadMobile;
        return;
      }
      if Get(block, ip, now) == Some(true) {
        o := Blocked;
        return;
      }
      if mobile in users {
        o := UserExists;
        return;
      }
      ghost var s0 := Snapshot();
      users := users[mobile := nextId];
      nextId := nextId + 1;
      var c := GenerateOtp();
      code := c;
      outbox := outbox + [Sms(mobile, c)];
      otp := Set(otp, mobile, c, now, OtpTtl);
      o := OtpCreated;
      SigninProperties.RegisterLoginKeepsValid(s0, mobile, ip, c);
    }

    /** VerifyOTPView.post, as written (see `RegisterVerifyFinding`). */
    method VerifyOtp(mobile: string, code: string, ip: string) returns (o: Outcome)
      requires Valid()
      modifies this
      ensures Valid()
      ensures Step(Snapshot(), o) == Signin.VerifyOtp(old(Snapshot()), mobile, code, ip)
    {
      SigninProperties.VerifyOtpKeepsValid(Snapshot(), mobile, code, ip);
      if !IsValidCode(code) {
        o := BadCode;
        return;
      }
      if Get(block, ip, now) == Some(true) {
        o := Blocked;
        return;
      }
      var cached := Get(otp, mobile, now);
      if cached == Some(code) {
        if mobile in users {
          o := AlreadyRegistered;
          return;
        }
        var id := nextId;
        users := users[mobile := id];
        nextId := nextId + 1;
        otp := Delete(otp, mobile);
        o := Verified(id);
      } else {
        o := RecordFailure(RegisterFlow, ip);
      }
    }

    /** CompleteRegistrationView.put, its not-found check only. */
    method CompleteRegistration(userId: int) returns (o: Outcome)
      ensures o == Completed <==> exists m :: m in users && users[m] == userId
      ensures o == Completed || o == NotFound
      ensures Step(Snapshot(), o) == Signin.CompleteRegistration(Snapshot(), userId)
    {
      o := if exists m :: m in users && users[m] == userId then Completed else NotFound;
    }

    /** LoginView.post; `code` is the code generated and sent, if any. */
    method Login(mobile: string, ip: string) returns (o: Outcome, ghost code: string)
      requires Valid()
      modifies this
      ensures Valid() && IsValidCode(code)
      ensures Step(Snapshot(), o) == Signin.Login(old(Snapshot()), mobile, ip, code)
    {
      code := "000000";
      if !IsValidMobile(mobile) {
        o := BadMobile;
        return;
      }
      if Get(block, ip, now) == Some(true) {
        o := Blocked;
        return;
      }
      if mobile !in users {
        o := NotFound;
        return;
      }
      var c := GenerateOtp();
      code := c;
      outbox := outbox + [Sms(mobile, c)];
      otp := Set(otp, mobile, c, now, OtpTtl);
      o := OtpSent;
    }

    /** VerifyOTPForLoginView.post. */
    method VerifyOtpForLogin(mobile: string, code: string, ip: string) returns (o: Outcome)
      requires Valid()
      modifies this
      ensures Valid()
      ensures Step(Snapshot(), o) == Signin.VerifyOtpForLogin(old(Snapshot()), mobile, code, ip)
    {
      SigninProperties.VerifyOtpForLoginKeepsValid(Snapshot(), mobile, code, ip);
      if !IsValidCode(code) {
        o := BadCode;
        return;
      }
      if Get(block, ip, now) == Some(true) {
        o := Blocked;
        return;
      }
      var cached := Get(otp, mobile, now);
      if cached == Some(code) {
        otp := Delete(otp, mobile);
        o := LoginSuccessful;
      } else {
        o := RecordFailure(LoginFlow, ip);
      }
    }
  }
}
