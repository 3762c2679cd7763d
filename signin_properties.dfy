/** What the sign-in handlers promise, stated and proved over the `Signin` functions. */
module SigninProperties {
  import opened Format
  import opened TtlCache
  import opened Signin

  /** The other verify flow. */
  function Other(flow: Flow): Flow {
    if flow == RegisterFlow then LoginFlow else RegisterFlow
  }

  /** The initial store satisfies the invariant. */
  lemma InitValid(start: int)
    ensures Valid(Init(start))
  {
  }

  /**
   * Format checks come first: a format outcome is reported exactly when the
   * input is malformed, whatever the block, user and code state, and then
   * nothing changes.
   */
  lemma FormatCheckedFirst(s: Store, mobile: string, code: string, ip: string, c: string)
    ensures RegisterLogin(s, mobile, ip, c).outcome == BadMobile <==> !IsValidMobile(mobile)
    ensures Login(s, mobile, ip, c).outcome == BadMobile <==> !IsValidMobile(mobile)
    ensures VerifyOtp(s, mobile, code, ip).outcome == BadCode <==> !IsValidCode(code)
    ensures VerifyOtpForLogin(s, mobile, code, ip).outcome == BadCode <==> !IsValidCode(code)
    ensures !IsValidMobile(mobile) ==> RegisterLogin(s, mobile, ip, c).after == s && Login(s, mobile, ip, c).after == s
    ensures !IsValidCode(code) ==> VerifyOtp(s, mobile, code, ip).after == s && VerifyOtpForLogin(s, mobile, code, ip).after == s
  {
  }

  /**
   * A live block answers every well-formed request with `Blocked` and changes
   * nothing; `Blocked` is never the answer when the IP was not blocked.
   */
  lemma BlockPreempts(s: Store, mobile: string, code: string, ip: string, c: string)
    ensures RegisterLogin(s, mobile, ip, c).outcome == Blocked <==> IsValidMobile(mobile) && IsBlocked(s, ip)
    ensures Login(s, mobile, ip, c).outcome == Blocked <==> IsValidMobile(mobile) && IsBlocked(s, ip)
    ensures VerifyOtp(s, mobile, code, ip).outcome == Blocked <==> IsValidCode(code) && IsBlocked(s, ip)
    ensures VerifyOtpForLogin(s, mobile, code, ip).outcome == Blocked <==> IsValidCode(code) && IsBlocked(s, ip)
    ensures IsBlocked(s, ip) && IsValidMobile(mobile) ==>
      RegisterLogin(s, mobile, ip, c).after == s && Login(s, mobile, ip, c).after == s
    ensures IsBlocked(s, ip) && IsValidCode(code) ==>
      VerifyOtp(s, mobile, code, ip).after == s && VerifyOtpForLogin(s, mobile, code, ip).after == s
  {
  }

  /** Registering a number that already has a user changes nothing and issues no code. */
  lemma RegisterLoginExisting(s: Store, mobile: string, ip: string, c: string)
    requires IsValidMobile(mobile) && !IsBlocked(s, ip) && mobile in s.users
    ensures RegisterLogin(s, mobile, ip, c) == Step(s, UserExists)
  {
  }

  /**
   * Registering a new number adds exactly that user with the next id, and
   * stores the generated code under the number for exactly 60 seconds; the
   * counters, the block flags and the other codes are untouched.
   */
  lemma RegisterLoginNew(s: Store, mobile: string, ip: string, c: string)
    requires IsValidMobile(mobile) && !IsBlocked(s, ip) && mobile !in s.users
    ensures var r := RegisterLogin(s, mobile, ip, c);
      && r.outcome == OtpCreated
      && r.after.users.Keys == s.users.Keys + {mobile}
      && r.after.users[mobile] == s.nextId
      && (forall m :: m in s.users ==> r.after.users[m] == s.users[m])
      && (forall t :: s.now <= t < s.now + OtpTtl ==> Get(r.after.otp, mobile, t) == Some(c))
      && (forall t :: t >= s.now + OtpTtl ==> Get(r.after.otp, mobile, t) == None)
      && (forall m, t :: m != mobile ==> Get(r.after.otp, m, t) == Get(s.otp, m, t))
      && r.after.fail == s.fail && r.after.failLogin == s.failLogin && r.after.block == s.block
      && r.after.now == s.now
      && r.after.outbox == s.outbox + [Sms(mobile, c)]
  {
    var r := RegisterLogin(s, mobile, ip, c);
    assert r.after.users == s.users[mobile := s.nextId];
    assert r.after.otp == Set(s.otp, mobile, c, s.now, OtpTtl);
    assert r.after.users.Keys == s.users.Keys + {mobile};
    CodeLifetime(s.otp, mobile, c, s.now);
  }

  /** Registering a new number grows the user table by exactly one entry. */
  lemma RegisterLoginAddsOneUser(s: Store, mobile: string, ip: string, c: string)
    requires IsValidMobile(mobile) && !IsBlocked(s, ip) && mobile !in s.users
    ensures |RegisterLogin(s, mobile, ip, c).after.users| == |s.users| + 1
  {
    var users := RegisterLogin(s, mobile, ip, c).after.users;
    assert users.Keys == s.users.Keys + {mobile};
  }

  /** A code written at `now` reads back for exactly `OtpTtl` seconds; the other numbers' codes read as before. */
  lemma CodeLifetime(otp: Cache<string>, mobile: string, c: string, now: int)
    ensures var otp' := Set(otp, mobile, c, now, OtpTtl);
      && (forall t :: now <= t < now + OtpTtl ==> Get(otp', mobile, t) == Some(c))
      && (forall t :: t >= now + OtpTtl ==> Get(otp', mobile, t) == None)
      && (forall m, t :: m != mobile ==> Get(otp', m, t) == Get(otp, m, t))
  {
    var otp' := Set(otp, mobile, c, now, OtpTtl);
    forall t | now <= t < now + OtpTtl ensures Get(otp', mobile, t) == Some(c) {
      GetAfterSet(otp, mobile, c, now, OtpTtl, t);
    }
    forall t | t >= now + OtpTtl ensures Get(otp', mobile, t) == None {
      GoneAfterTtl(otp, mobile, c, now, OtpTtl, t);
    }
    forall m, t | m != mobile ensures Get(otp', m, t) == Get(otp, m, t) {
      SetOtherKey(otp, mobile, c, now, OtpTtl, m, t);
    }
  }

  /**
   * A matching register-verify, on any store: when the number has a user,
   * `get_or_create` finds it, the answer is "already registered" and nothing
   * changes; otherwise the user is created with the next id, only that code
   * is deleted, and the answer carries the new id.
   */
  lemma RegisterVerifyMatch(s: Store, mobile: string, code: string, ip: string)
    requires IsValidCode(code) && !IsBlocked(s, ip) && Get(s.otp, mobile, s.now) == Some(code)
    ensures mobile in s.users ==> VerifyOtp(s, mobile, code, ip) == Step(s, AlreadyRegistered)
    ensures mobile !in s.users ==>
      var r := VerifyOtp(s, mobile, code, ip);
      && r.outcome == Verified(s.nextId)
      && r.after.users == s.users[mobile := s.nextId]
      && r.after.nextId == s.nextId + 1
      && Get(r.after.otp, mobile, r.after.now) == None
      && (forall m, t :: m != mobile ==> Get(r.after.otp, m, t) == Get(s.otp, m, t))
      && r.after.fail == s.fail && r.after.failLogin == s.failLogin && r.after.block == s.block
      && r.after.now == s.now && r.after.outbox == s.outbox
  {
  }

  /**
   * Complete-registration finds exactly the ids the user table hands out:
   * the id of every registered number is found, and on a valid store an id
   * outside 1 .. nextId-1 is not.
   */
  lemma CompleteRegistrationFindsRegistered(s: Store, mobile: string, userId: int)
    ensures mobile in s.users ==> CompleteRegistration(s, s.users[mobile]).outcome == Completed
    ensures Valid(s) && (userId < 1 || userId >= s.nextId) ==> CompleteRegistration(s, userId).outcome == NotFound
    ensures CompleteRegistration(s, userId).after == s
  {
  }

  /** Login for an unregistered number answers not-found and changes nothing. */
  lemma LoginUnregistered(s: Store, mobile: string, ip: string, c: string)
    requires IsValidMobile(mobile) && !IsBlocked(s, ip) && mobile !in s.users
    ensures Login(s, mobile, ip, c) == Step(s, NotFound)
  {
  }

  /**
   * Login for a registered number overwrites its code with the generated one
   * for exactly 60 seconds and leaves the user table and everything else as
   * it was.
   */
  lemma LoginIssues(s: Store, mobile: string, ip: string, c: string)
    requires IsValidMobile(mobile) && !IsBlocked(s, ip) && mobile in s.users
    ensures var r := Login(s, mobile, ip, c);
      && r.outcome == OtpSent
      && r.after.users == s.users && r.after.nextId == s.nextId
      && (forall t :: s.now <= t < s.now + OtpTtl ==> Get(r.after.otp, mobile, t) == Some(c))
      && (forall t :: t >= s.now + OtpTtl ==> Get(r.after.otp, mobile, t) == None)
      && (forall m, t :: m != mobile ==> Get(r.after.otp, m, t) == Get(s.otp, m, t))
      && r.after.fail == s.fail && r.after.failLogin == s.failLogin && r.after.block == s.block
      && r.after.now == s.now
      && r.after.outbox == s.outbox + [Sms(mobile, c)]
  {
    CodeLifetime(s.otp, mobile, c, s.now);
  }

  /**
   * Login-verify succeeds exactly when a live code is stored for the number
   * and equals the submitted one; success deletes that code and nothing else.
   */
  lemma LoginVerifySucceedsIff(s: Store, mobile: string, code: string, ip: string)
    requires IsValidCode(code) && !IsBlocked(s, ip)
    ensures VerifyOtpForLogin(s, mobile, code, ip).outcome == LoginSuccessful
        <==> Get(s.otp, mobile, s.now) == Some(code)
    ensures Get(s.otp, mobile, s.now) == Some(code) ==>
      VerifyOtpForLogin(s, mobile, code, ip).after == s.(otp := Delete(s.otp, mobile))
  {
  }

  /** A code accepted by login-verify cannot be used again: the repeat takes the failure path. */
  lemma LoginVerifySingleUse(s: Store, mobile: string, code: string, ip: string)
    requires VerifyOtpForLogin(s, mobile, code, ip).outcome == LoginSuccessful
    ensures var s1 := VerifyOtpForLogin(s, mobile, code, ip).after;
      && VerifyOtpForLogin(s1, mobile, code, ip) == RecordFailure(s1, LoginFlow, ip)
      && VerifyOtpForLogin(s1, mobile, code, ip).outcome in {InvalidCode, TooManyAttempts}
  {
    var s1 := VerifyOtpForLogin(s, mobile, code, ip).after;
    GetAfterDelete(s.otp, mobile, mobile, s.now);
    assert Get(s1.otp, mobile, s1.now) == None;
  }

  /**
   * A code issued by login verifies while it is younger than 60 seconds and
   * fails from then on, whatever is submitted.
   */
  lemma IssuedCodeExpires(s: Store, mobile: string, ip: string, c: string, code: string, dt: nat)
    requires Login(s, mobile, ip, c).outcome == OtpSent && IsValidCode(c) && IsValidCode(code)
    requires !IsBlocked(Tick(Login(s, mobile, ip, c).after, dt), ip)
    ensures var s1 := Tick(Login(s, mobile, ip, c).after, dt);
      && (dt < OtpTtl ==> VerifyOtpForLogin(s1, mobile, c, ip).outcome == LoginSuccessful)
      && (dt >= OtpTtl ==> VerifyOtpForLogin(s1, mobile, code, ip).outcome in {InvalidCode, TooManyAttempts})
  {
    var s0 := Login(s, mobile, ip, c).after;
    var s1 := Tick(s0, dt);
    if dt < OtpTtl {
      GetAfterSet(s.otp, mobile, c, s.now, OtpTtl, s1.now);
    } else {
      GoneAfterTtl(s.otp, mobile, c, s.now, OtpTtl, s1.now);
    }
  }

  /**
   * The failure branch: exactly the flow's own counter goes up by one (an
   * absent counter counts as 0) with a fresh hour; the IP is blocked for an
   * hour, and the answer is `TooManyAttempts` rather than `InvalidCode`,
   * exactly when the new count reaches three. The other flow's counter, the
   * codes and the users are untouched.
   */
  lemma FailureAccounting(s: Store, flow: Flow, ip: string)
    ensures var r := RecordFailure(s, flow, ip);
      var n := FailureCount(s, flow, ip) + 1;
      && Counter(r.after, flow) == Set(Counter(s, flow), ip, n, s.now, FailTtl)
      && FailureCount(r.after, flow, ip) == n
      && Counter(r.after, Other(flow)) == Counter(s, Other(flow))
      && r.after.users == s.users && r.after.nextId == s.nextId
      && r.after.otp == s.otp && r.after.now == s.now && r.after.outbox == s.outbox
      && (r.outcome == TooManyAttempts <==> n >= MaxFailures)
      && (n >= MaxFailures ==> r.after.block == Set(s.block, ip, true, s.now, BlockTtl) && IsBlocked(r.after, ip))
      && (n < MaxFailures ==> r.outcome == InvalidCode && r.after.block == s.block)
  {
  }

  /** A well-formed verify from an unblocked IP whose code does not match is exactly a recorded failure. */
  lemma VerifyFailureRecords(s: Store, flow: Flow, mobile: string, code: string, ip: string)
    requires IsValidCode(code) && !IsBlocked(s, ip) && Get(s.otp, mobile, s.now) != Some(code)
    ensures Verify(s, flow, mobile, code, ip) == RecordFailure(s, flow, ip)
  {
  }

  /**
   * The block flag is per IP and shared: once either verify flow escalates,
   * every well-formed request of any handler from that IP, for any number,
   * is answered `Blocked`.
   */
  lemma BlockIsShared(s: Store, flow: Flow, mobile: string, code: string, ip: string,
                      mobile': string, code': string, c: string)
    requires Verify(s, flow, mobile, code, ip).outcome == TooManyAttempts
    ensures var s1 := Verify(s, flow, mobile, code, ip).after;
      && IsBlocked(s1, ip)
      && (IsValidCode(code') ==> Verify(s1, RegisterFlow, mobile', code', ip).outcome == Blocked)
      && (IsValidCode(code') ==> Verify(s1, LoginFlow, mobile', code', ip).outcome == Blocked)
      && (IsValidMobile(mobile') ==> RegisterLogin(s1, mobile', ip, c).outcome == Blocked)
      && (IsValidMobile(mobile') ==> Login(s1, mobile', ip, c).outcome == Blocked)
  {
    BlockPreempts(Verify(s, flow, mobile, code, ip).after, mobile', code', ip, c);
  }

  /**
   * A block lasts exactly one hour from the failure that set it, after which
   * that flow's counter has expired too and the IP is served again.
   */
  lemma BlockClearsAfterTtl(s: Store, flow: Flow, mobile: string, code: string, ip: string, dt: nat)
    requires Verify(s, flow, mobile, code, ip).outcome == TooManyAttempts
    ensures var s1 := Tick(Verify(s, flow, mobile, code, ip).after, dt);
      && (dt < BlockTtl ==> IsBlocked(s1, ip))
      && (dt >= BlockTtl ==> !IsBlocked(s1, ip) && FailureCount(s1, flow, ip) == 0)
  {
  }

  /** The outcomes of `k` identical verify requests in a row, at one instant. */
  datatype Run = Run(after: Store, outcomes: seq<Outcome>)

  function Repeat(s: Store, flow: Flow, mobile: string, code: string, ip: string, k: nat): Run
    decreases k
  {
    if k == 0 then Run(s, [])
    else
      var r := Verify(s, flow, mobile, code, ip);
      var rest := Repeat(r.after, flow, mobile, code, ip, k - 1);
      Run(rest.after, [r.outcome] + rest.outcomes)
  }

  /** The answer to the failure that brings the counter to `n`, once blocked ones are included. */
  function Expected(n: nat): Outcome {
    if n < MaxFailures then InvalidCode
    else if n == MaxFailures then TooManyAttempts
    else Blocked
  }

  /** While an IP is blocked, verify requests are all answered `Blocked` and change nothing. */
  lemma {:induction false} RepeatWhileBlocked(s: Store, flow: Flow, mobile: string, code: string, ip: string, k: nat)
    requires IsValidCode(code) && IsBlocked(s, ip)
    ensures Repeat(s, flow, mobile, code, ip, k).after == s
    ensures Repeat(s, flow, mobile, code, ip, k).outcomes == seq(k, _ => Blocked)
    decreases k
  {
    if k > 0 {
      RepeatWhileBlocked(s, flow, mobile, code, ip, k - 1);
    }
  }

  /**
   * Wrong codes submitted again and again from one IP: the failures are
   * counted one by one, the one that brings the count to three already
   * answers `TooManyAttempts`, and every request after it `Blocked`.
   */
  lemma {:induction false} RepeatedFailures(s: Store, flow: Flow, mobile: string, code: string, ip: string, k: nat)
    requires IsValidCode(code) && !IsBlocked(s, ip)
    requires Get(s.otp, mobile, s.now) != Some(code)
    requires FailureCount(s, flow, ip) < MaxFailures
    ensures |Repeat(s, flow, mobile, code, ip, k).outcomes| == k
    ensures forall i :: 0 <= i < k ==>
      Repeat(s, flow, mobile, code, ip, k).outcomes[i] == Expected(FailureCount(s, flow, ip) + i + 1)
    decreases k
  {
    if k > 0 {
      var j := FailureCount(s, flow, ip);
      var r := Verify(s, flow, mobile, code, ip);
      VerifyFailureRecords(s, flow, mobile, code, ip);
      FailureAccounting(s, flow, ip);
      var run := Repeat(s, flow, mobile, code, ip, k);
      var rest := Repeat(r.after, flow, mobile, code, ip, k - 1);
      assert run.outcomes == [r.outcome] + rest.outcomes;
      if j + 1 < MaxFailures {
        RepeatedFailures(r.after, flow, mobile, code, ip, k - 1);
      } else {
        RepeatWhileBlocked(r.after, flow, mobile, code, ip, k - 1);
      }
      forall i | 0 <= i < k ensures run.outcomes[i] == Expected(j + i + 1) {
        if i > 0 { assert run.outcomes[i] == rest.outcomes[i - 1]; }
      }
    }
  }

  /**
   * The scenario of the login-verify test: a registered number, a clear
   * cache, four wrong codes from one IP. The third request already answers
   * 403 (the test expects 400 for the first three), the fourth 403 as
   * `Blocked`.
   */
  lemma FailedAttemptsScenario(s: Store, mobile: string, ip: string)
    requires s.otp == map[] && s.failLogin == map[] && s.block == map[]
    ensures var run := Repeat(s, LoginFlow, mobile, "000000", ip, 4);
      && run.outcomes == [InvalidCode, InvalidCode, TooManyAttempts, Blocked]
      && Status(run.outcomes[2]) == 403
  {
    var run := Repeat(s, LoginFlow, mobile, "000000", ip, 4);
    assert IsValidCode("000000");
    RepeatedFailures(s, LoginFlow, mobile, "000000", ip, 4);
    assert run.outcomes[0] == Expected(1) && run.outcomes[1] == Expected(2);
    assert run.outcomes[2] == Expected(3) && run.outcomes[3] == Expected(4);
  }

  /** A recorded failure keeps the store invariant: the new count is at least one. */
  lemma RecordFailureKeepsValid(s: Store, flow: Flow, ip: string)
    requires Valid(s)
    ensures Valid(RecordFailure(s, flow, ip).after)
  {
  }

  /** Giving an unregistered number the next id keeps the ids positive, below `nextId` and unique. */
  lemma AddUserKeepsIds(s: Store, mobile: string)
    requires Valid(s) && mobile !in s.users
    ensures var users := s.users[mobile := s.nextId];
      && (forall m :: m in users ==> 1 <= users[m] < s.nextId + 1)
      && (forall m, m' :: m in users && m' in users && users[m] == users[m'] ==> m == m')
  {
    var users := s.users[mobile := s.nextId];
    forall m, m' | m in users && m' in users && users[m] == users[m']
      ensures m == m'
    {
      if m != mobile && m' != mobile { assert users[m] == s.users[m]; }
    }
  }

  /** Registering keeps the invariant: the new user gets a fresh, unused id. */
  lemma RegisterLoginKeepsValid(s: Store, mobile: string, ip: string, c: string)
    requires Valid(s) && IsValidCode(c)
    ensures Valid(RegisterLogin(s, mobile, ip, c).after)
  {
    if RegisterLogin(s, mobile, ip, c).outcome == OtpCreated {
      AddUserKeepsIds(s, mobile);
    }
  }

  /** Register-verify keeps the invariant, also when `get_or_create` creates the user. */
  lemma VerifyOtpKeepsValid(s: Store, mobile: string, code: string, ip: string)
    requires Valid(s)
    ensures Valid(VerifyOtp(s, mobile, code, ip).after)
  {
    if IsValidCode(code) && !IsBlocked(s, ip) {
      if Get(s.otp, mobile, s.now) != Some(code) {
        RecordFailureKeepsValid(s, RegisterFlow, ip);
      } else if mobile !in s.users {
        AddUserKeepsIds(s, mobile);
      }
    }
  }

  /** Login keeps the invariant: it only issues codes for registered numbers. */
  lemma LoginKeepsValid(s: Store, mobile: string, ip: string, c: string)
    requires Valid(s) && IsValidCode(c)
    ensures Valid(Login(s, mobile, ip, c).after)
  {
  }

  /** Login-verify keeps the invariant. */
  lemma VerifyOtpForLoginKeepsValid(s: Store, mobile: string, code: string, ip: string)
    requires Valid(s)
    ensures Valid(VerifyOtpForLogin(s, mobile, code, ip).after)
  {
    if IsValidCode(code) && !IsBlocked(s, ip) && Get(s.otp, mobile, s.now) != Some(code) {
      RecordFailureKeepsValid(s, LoginFlow, ip);
    }
  }

  /** Every routed request keeps the store invariant. */
  lemma ApplyKeepsValid(s: Store, q: Request)
    requires Valid(s) && Generated(q)
    ensures Valid(Apply(s, q))
  {
    match q
    case RegisterReq(mobile, ip, code) => RegisterLoginKeepsValid(s, mobile, ip, code);
    case VerifyReq(mobile, code, ip) => VerifyOtpKeepsValid(s, mobile, code, ip);
    case CompleteReq(_) =>
    case LoginReq(mobile, ip, code) => LoginKeepsValid(s, mobile, ip, code);
    case VerifyLoginReq(mobile, code, ip) => VerifyOtpForLoginKeepsValid(s, mobile, code, ip);
    case Wait(_) =>
  }

  /** Every store reached from a cleared cache by any sequence of requests satisfies the invariant. */
  lemma {:induction false} ReachableIsValid(s: Store, qs: seq<Request>)
    requires Valid(s)
    requires forall i :: 0 <= i < |qs| ==> Generated(qs[i])
    ensures Valid(Replay(s, qs))
    decreases |qs|
  {
    if qs != [] {
      ApplyKeepsValid(s, qs[0]);
      ReachableIsValid(Apply(s, qs[0]), qs[1..]);
    }
  }

  /**
   * Users are never removed or renumbered: every number registered before a
   * sequence of requests keeps its id, and the next id never decreases.
   */
  lemma {:induction false} UsersOnlyGrow(s: Store, qs: seq<Request>)
    ensures forall m :: m in s.users ==> m in Replay(s, qs).users && Replay(s, qs).users[m] == s.users[m]
    ensures Replay(s, qs).nextId >= s.nextId
    decreases |qs|
  {
    if qs != [] {
      UsersOnlyGrow(Apply(s, qs[0]), qs[1..]);
    }
  }
}

