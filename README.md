# OTP sign-in state machine

A model of the mobile-number sign-in core of the `signin` Django project
(`account/api/v1/views.py`). Its handlers share a key-value cache with
expiring entries. The cache holds a six-digit code per mobile number
(`otp_{mobile}`, 60 s), a failure counter per IP and verify flow
(`fail_{ip}` and `fail_login_{ip}`, 1 h) and a block flag per IP
(`block_{ip}`, 1 h). The handlers also share a user table keyed by a unique
mobile number.

Modules:

- `Format` (`format.dfy`): the inline `len(s) == n and s.isnumeric()` checks.
- `TtlCache` (`ttl_cache.dfy`): cache entries that carry an expiry time. A
  read at time `now` sees an entry only while `now < expiry`. `set` restarts
  an entry's lifetime.
- `Signin` (`signin.dfy`): the state as a value (`Store`: users, `nextId`,
  the four key spaces, the clock, the SMS outbox). Each handler is a function
  from a store and a request to the next store and an `Outcome`. `Status`
  gives the HTTP status each outcome is sent with.
- `SigninProperties` (`signin_properties.dfy`): lemmas about those functions.
- `SigninService` (`signin_service.dfy`): the handlers as methods of a class
  `Service`, with the same fields. Each method updates the fields step by
  step, as the view does. Each method is proved to produce exactly the store
  and outcome of the matching `Signin` function, and to keep the store
  invariant. `GenerateOtp` draws six digits in a loop.
- `RegisterVerifyFinding` (`register_verify_finding.dfy`): the finding below.

`Signin.Apply` routes a `Request` to its handler, as `account/api/v1/urls.py`
routes paths to views. `Signin.Replay` serves a sequence of requests one
after another. Lemmas about `Replay` state what holds in every reachable
state.

Order of checks, as in the view bodies. Each of the four OTP handlers
(register, register-verify, login, login-verify) validates its input format
first. It then checks the block flag, and only then looks at users or codes.
Complete-registration checks neither format nor block: it looks the user up
at once. In the running program each view first runs its serializer's
validation, which is not modelled (see "Left out").
The two verify flows count failures separately but share the one block flag.
The failure that brings a counter to three sets the block and is already
answered 403.

The test at `account/api/v1/tests.py:80-84` expects 400 for each of the
first three wrong codes. The model follows the code, which answers 400, 400
and then 403. `SigninProperties.FailedAttemptsScenario` shows this outcome
sequence.

The register-verify handler is modelled as written, in both `Signin.VerifyOtp`
and `SigninService.Service.VerifyOtp`. When `get_or_create` finds the user,
the handler answers "already registered" and keeps the code. Only when
`get_or_create` creates the user does it delete the code and return the new
id.

## Model

| member | source | states |
|---|---|---|
| Format.IsValidMobile | account/api/v1/views.py:37 | a mobile number is accepted iff it has exactly 11 characters, all numeric (likewise :154) |
| Format.IsValidCode | account/api/v1/views.py:77 | a code is accepted iff it has exactly 6 characters, all numeric (likewise :194) |
| Signin.Status | account/api/v1/views.py:32-229 | the HTTP status each outcome is answered with: 201 for a new registration, 404 for not found, 400 for format errors and wrong codes, 403 for blocked and escalated, 200 otherwise |
| Signin.RecordFailure | account/api/v1/views.py:111-124 | the shared failure branch: counter read (absent is 0), incremented, written for an hour; block for an hour and 403 at three, else 400 (likewise :214-229) |
| Signin.RegisterLogin | account/api/v1/views.py:32-66 | RegisterLoginView.post on the store, for the code `generate_otp` returned |
| Signin.VerifyOtp | account/api/v1/views.py:72-124 | VerifyOTPView.post on the store, as written |
| Signin.CompleteRegistration | account/api/v1/views.py:131-138 | the not-found check of CompleteRegistrationView.put on the store |
| Signin.Login | account/api/v1/views.py:149-182 | LoginView.post on the store, for the code `generate_otp` returned |
| Signin.VerifyOtpForLogin | account/api/v1/views.py:188-229 | VerifyOTPForLoginView.post on the store |
| Signin.Apply | account/api/v1/urls.py:10-20 | routes each request to its view's handler; a wait lets time pass |
| RegisterVerifyFinding.VerifyOtpIntended | account/api/v1/views.py:92-109 | register-verify as evidently intended: a matched code is always deleted and the answer carries the user's id |
| SigninService.GenerateOtp | account/api/v1/views.py:24-26 | the generated code is exactly six characters, each a digit '0'..'9' |
| SigninService.Service.constructor | account/api/v1/tests.py:16 | a cleared cache and an empty user table: the store is `Init(start)` and satisfies the invariant |
| SigninService.Service.RecordFailure | account/api/v1/views.py:111-121 | read-increment-write of the flow's counter, block on reaching three; the new state and outcome are those of `Signin.RecordFailure` |
| SigninService.Service.RegisterLogin | account/api/v1/views.py:32-66 | the new state and outcome equal `Signin.RegisterLogin` for the code that was generated (a valid six-digit code); the invariant is kept |
| SigninService.Service.VerifyOtp | account/api/v1/views.py:72-124 | the new state and outcome equal `Signin.VerifyOtp`; the invariant is kept |
| SigninService.Service.CompleteRegistration | account/api/v1/views.py:131-138 | answers Completed iff some user has the given id, otherwise NotFound; nothing changes |
| SigninService.Service.Login | account/api/v1/views.py:149-182 | the new state and outcome equal `Signin.Login` for the code that was generated (a valid six-digit code); the invariant is kept |
| SigninService.Service.VerifyOtpForLogin | account/api/v1/views.py:188-229 | the new state and outcome equal `Signin.VerifyOtpForLogin`; the invariant is kept |
| TtlCache.GetAfterSet | account/api/v1/views.py:62 | a value written with a lifetime reads back at every instant before the lifetime ends |
| TtlCache.GoneAfterTtl | account/api/v1/views.py:174 | from the end of its lifetime on, a written value reads as absent |
| TtlCache.SetOtherKey | account/api/v1/views.py:113 | a write to one key leaves every other key's reads unchanged |
| TtlCache.GetAfterDelete | account/api/v1/views.py:102 | after a delete the key reads as absent and other keys are unaffected |
| SigninProperties.InitValid | account/models.py:23 | the empty store satisfies the invariant (ids positive, below the next id, unique; stored codes six digits; counters positive) |
| SigninProperties.FormatCheckedFirst | account/api/v1/views.py:37-41 | a format outcome (mobile at :37 and :154, code at :77 and :194) is reported iff the input is malformed, whatever the block, user and code state, and the store is then unchanged |
| SigninProperties.BlockPreempts | account/api/v1/views.py:43-49 | each handler answers Blocked iff the input is well formed and the IP's block flag is live (likewise :83-88, :160-167, :200-207); users, codes and counters are then unchanged |
| SigninProperties.RegisterLoginExisting | account/api/v1/views.py:51-56 | registering a number that has a user answers UserExists, creates no user and leaves every code untouched |
| SigninProperties.RegisterLoginNew | account/api/v1/views.py:57-66 | registering a new number adds exactly that user with the next id and stores the sent code for exactly 60 s; counters, block flags and other codes are untouched |
| SigninProperties.RegisterLoginAddsOneUser | account/api/v1/views.py:58 | registering a new number grows the user table by exactly one |
| SigninProperties.CodeLifetime | account/api/v1/views.py:62 | a code stored at time t reads back during [t, t+60) and not from t+60 on; other numbers' codes read as before |
| SigninProperties.RegisterVerifyMatch | account/api/v1/views.py:92-109 | on any store, a matching register-verify answers AlreadyRegistered with nothing changed when the number has a user; otherwise it adds the user with the next id, deletes only that code and answers with the new id, leaving counters and block flags unchanged |
| SigninProperties.CompleteRegistrationFindsRegistered | account/api/v1/views.py:133-138 | the id of every registered number is found; on a valid store an id outside 1 .. nextId-1 is not found; nothing changes |
| SigninProperties.LoginUnregistered | account/api/v1/views.py:178-182 | login for an unregistered number answers NotFound and changes nothing |
| SigninProperties.LoginIssues | account/api/v1/views.py:169-177 | login for a registered number overwrites its code with the sent one for exactly 60 s and leaves users and everything else unchanged |
| SigninProperties.LoginVerifySucceedsIff | account/api/v1/views.py:209-212 | login-verify succeeds iff a live code is stored for the number and equals the submitted one exactly; success deletes only that code |
| SigninProperties.LoginVerifySingleUse | account/api/v1/views.py:209-212 | after a successful login-verify the same request takes the failure path |
| SigninProperties.IssuedCodeExpires | account/api/v1/views.py:174 | a code issued by login verifies while younger than 60 s and no submitted code succeeds from then on |
| SigninProperties.FailureAccounting | account/api/v1/views.py:111-121 | a failure increments only its own flow's counter (absent counts as 0) with a fresh hour; the block is set for an hour, and the answer is TooManyAttempts instead of InvalidCode, iff the new count is at least three (likewise :214-226); the other counter, codes and users are unchanged |
| SigninProperties.VerifyFailureRecords | account/api/v1/views.py:110-113 | a well-formed, unblocked verify whose code does not match is exactly a recorded failure of that flow (likewise :213-217) |
| SigninProperties.BlockIsShared | account/api/v1/views.py:214-226 | once either verify flow escalates, every handler answers Blocked to well-formed requests from that IP, for any number |
| SigninProperties.BlockClearsAfterTtl | account/api/v1/views.py:115 | the block lasts exactly one hour from the failure that set it; after that the counter has expired too |
| SigninProperties.RepeatWhileBlocked | account/api/v1/views.py:200-207 | while the IP is blocked, repeated verify requests all answer Blocked and change nothing |
| SigninProperties.RepeatedFailures | account/api/v1/views.py:214-229 | repeated wrong codes answer InvalidCode until the count reaches three, TooManyAttempts on that attempt, and Blocked afterwards |
| SigninProperties.FailedAttemptsScenario | account/api/v1/tests.py:77-90 | four wrong codes from a clear cache answer InvalidCode, InvalidCode, TooManyAttempts, Blocked: the third is already 403 |
| SigninProperties.ApplyKeepsValid | account/api/v1/urls.py:10-20 | every routed request keeps the store invariant, given six-digit generated codes |
| SigninProperties.ReachableIsValid | account/api/v1/views.py:58-62 | every store reached by any sequence of requests from a valid one (in particular from a cleared cache) satisfies the invariant |
| SigninProperties.UsersOnlyGrow | account/api/v1/views.py:93-95 | along any sequence of requests no user is removed or renumbered and the next id never decreases |
| SigninProperties.RecordFailureKeepsValid | account/api/v1/views.py:111-113 | a recorded failure keeps the store invariant |
| SigninProperties.RegisterLoginKeepsValid | account/api/v1/views.py:58-62 | registering keeps the invariant: the new user gets a fresh, unused id |
| SigninProperties.VerifyOtpKeepsValid | account/api/v1/views.py:93-102 | register-verify keeps the invariant, also when `get_or_create` creates the user |
| SigninProperties.LoginKeepsValid | account/api/v1/views.py:171-174 | login keeps the invariant |
| SigninProperties.VerifyOtpForLoginKeepsValid | account/api/v1/views.py:209-217 | login-verify keeps the invariant |
| RegisterVerifyFinding.HandlersKeepOwned | account/api/v1/views.py:57-62 | every handler keeps each stored code owned by a registered number |
| RegisterVerifyFinding.ApplyKeepsOwned | account/api/v1/urls.py:10-20 | every routed request keeps each stored code owned by a registered number |
| RegisterVerifyFinding.ReplayKeepsOwned | account/api/v1/views.py:169-174 | along any sequence of requests every stored code stays owned by a registered number |
| RegisterVerifyFinding.ReachableRegisterVerifyNeverConsumes | account/api/v1/views.py:92-109 | in every state reached from a cleared cache, register-verify never answers with a user id, and a matching code is answered AlreadyRegistered with nothing changed |
| RegisterVerifyFinding.RegisterVerifyNeverConsumes | account/api/v1/views.py:92-100 | when every code is owned, a matching register-verify answers AlreadyRegistered and changes nothing |
| RegisterVerifyFinding.VerifiedNeverAnswered | account/api/v1/views.py:102-109 | when every code is owned, register-verify never answers with a user id |
| RegisterVerifyFinding.RegisteredCodeIsReusable | account/api/v1/views.py:96-100 | register 09123456789, then submit the sent code: the answer is AlreadyRegistered and the store is unchanged, so the code stays usable |
| RegisterVerifyFinding.IntendedExistingUser | account/api/v1/views.py:96-102 | in the corrected handler a number that already has a user gets its code deleted and its existing id back, never AlreadyRegistered |
| RegisterVerifyFinding.IntendedIsSingleUse | account/api/v1/views.py:102 | in the corrected handler a code accepted once is deleted, so the same request then fails |
| RegisterVerifyFinding.IntendedHandsOutUserId | account/api/v1/views.py:103-109 | in the corrected handler, registering and then submitting the code within 60 s answers with the new user's id, and complete-registration finds that id |
| RegisterVerifyFinding.IntendedKeepsInvariants | account/api/v1/views.py:93-102 | the corrected handler keeps the store invariant and code ownership |

## Findings

| source | as written | input that shows it | evidently intended | confidence | as-written member | corrected member |
|---|---|---|---|---|---|---|
| account/api/v1/views.py:93-102 | register-verify deletes the code and returns `user_id` only when `get_or_create` creates the user; RegisterLogin (views.py:58) has already created that user, so the code is never deleted and the id never returned | register "09123456789", then verify it with the code that was sent: "already registered", the code stays live and the same request succeeds again within 60 s | a matched code is deleted (single use) and the answer carries the user's id for completing the registration. The corrected handler gives the id to every number with a matching code, also one registered long ago whose code came from login: telling such a number apart ("already registered") would need state the program does not keep, so this reading drops the "already registered" answer | high, not executed | RegisterVerifyFinding.RegisteredCodeIsReusable | RegisterVerifyFinding.IntendedIsSingleUse |

## Left out

- Format.IsValidMobile, Format.IsValidCode (through Format.IsDigit): only the ASCII digits '0'..'9' count as numeric. Python's `str.isnumeric` also accepts other Unicode numerals, such as fullwidth digits or '½', so the model rejects some numbers and codes that the views accept.
- `send_sms` is I/O. It is modelled as an append to the `outbox` field and nothing more.
- `get_client_ip` (account/api/utils) is not part of this model. The IP is a parameter of each handler.
- Randomness: `random.randint` becomes a nondeterministic choice in `GenerateOtp`. The quality of the random source is not modelled.
- The serializers' validation (`is_valid(raise_exception=True)` at views.py:34, :74, :150, :189) is framework behaviour, and the model starts at the explicit format checks after it. In the program it runs first, before the format and block checks. `RegisterSerializer` is a model serializer over the unique `mobile_number` (models.py:23), so for an already registered number it answers 400 before the view body runs. The model's `UserExists` branch (views.py:51-56) is therefore reachable in the program only through a race between two register requests for the same number. The `max_length` limits of the serializers and a missing `code` field, which `OTPSerializer` allows, are not modelled either.
- CompleteRegistration: only the not-found check is modelled. Profile fields, their validation and the update are left out.
- The `OTP` table rows written at views.py:60 and :172 are never read back, so they are left out. `OTP.is_expired` is never called by a view, so it is left out too. The cache lifetime is the expiry that takes effect.
- The cache keys are modelled as four separate key spaces. The model therefore does not capture a collision between `fail_{ip}` and `fail_login_{ip'}`, which would need an IP that begins with `login_`.
- The cache drops an expired entry when it is read. In the model expired entries stay in the map, and reads ignore them; this difference cannot be observed.
- The passing of time is an explicit `Tick` (`Service.Advance`). The model makes no statement about wall-clock time.
- Concurrency is out of scope for a sequential model. This includes the get-then-delete race between two verify requests that carry the same code.
- Routing, admin, the API schema and `account/models.py` beyond the unique mobile number are framework declarations, so they are left out.
