/**
 * The user store behind the route handlers of server.js and what each
 * handler does to it: register, login, get-user, the payment notification,
 * generate-comment and generate-alternatives. Each handler is a function
 * from the store before the request to an Outcome: the HTTP reply, the store
 * after it, and whether the model was called.
 *
 * The `users` collection is a map from username to record; one handler runs
 * to its end before the next one starts.
 */
module Ledger {
  import opened Wrappers
  import opened JsonValues
  import opened Extraction

  /** Credits granted at registration (server.js:62). */
  const InitialCredits: int := 50
  /** Credits added by a successful payment notification (server.js:141). */
  const TopUpCredits: int := 50

  datatype User = User(username: string, password: string, credits: int)
  type Users = map<string, User>

  /**
   * One entry of `studentProfiles`; the handlers only count them, the fields
   * feed the prompt text.
   */
  datatype StudentProfile = StudentProfile(name: string, role: string, incidents: string, tags: string)

  datatype UserView = UserView(username: string, credits: int)

  datatype Reason =
    | MissingCredentials   // 400: username or password empty or absent
    | UsernameTaken        // 400
    | WrongCredentials     // 401 on login
    | NoSuchUser           // 404 on get-user
    | NotLoggedIn          // 401 on the AI routes
    | InternalError        // 500: an exception reached the catch block

  datatype Body =
    | Registered(user: UserView)
    | LoggedIn(user: UserView)
    | Profile(user: UserView)
    | Refused(reason: Reason)
    | NotEnoughCredits(required: int, remaining: int)
    | Generated(result: Option<Json>)
    | PlainText(text: string)

  datatype Reply = Reply(status: int, body: Body)

  datatype Outcome = Outcome(reply: Reply, users: Users, aiCalled: bool)

  /**
   * A username the document store accepts as a document id. A missing field
   * arrives as `undefined` and an empty one as "": for both, `doc` throws and
   * the handler answers 500. Both are written "" here.
   */
  predicate ValidDocId(name: string) {
    name != ""
  }

  /**
   * Every record is filed under its own username and was written by
   * register: a non-empty name and password, and a balance that is not
   * negative.
   */
  ghost predicate WellFormed(users: Users) {
    forall name :: name in users ==>
      name != "" && users[name].username == name && users[name].password != "" && users[name].credits >= 0
  }

  /** The two stores differ at most in the record of `name`, and have the same usernames. */
  ghost predicate OnlyChanged(before: Users, after: Users, name: string) {
    after.Keys == before.Keys && forall v :: v in before && v != name ==> after[v] == before[v]
  }

  /** The trade states that count as paid (server.js:136). */
  predicate IsPaid(tradeStatus: string) {
    tradeStatus == "TRADE_SUCCESS" || tradeStatus == "TRADE_FINISHED"
  }

  /**
   * `update({credits: FieldValue.increment(delta)})` on an existing record:
   * the balance moves by exactly delta, with no guard, and nothing else
   * changes.
   */
  function Increment(users: Users, name: string, delta: int): (r: Users)
    requires name in users
    ensures name in r && r[name].credits == users[name].credits + delta
    ensures r[name].username == users[name].username && r[name].password == users[name].password
    ensures OnlyChanged(users, r, name)
  {
    users[name := users[name].(credits := users[name].credits + delta)]
  }

  /** POST /api/register (server.js:54-69). */
  function Register(users: Users, username: string, password: string): (o: Outcome)
    ensures !o.aiCalled
    ensures o.reply.status == 201 <==> username != "" && password != "" && username !in users
    ensures o.reply.status == 201 ==>
      o.users == users[username := User(username, password, InitialCredits)] &&
      o.reply.body == Registered(UserView(username, InitialCredits))
    ensures o.reply.status != 201 ==> o.reply.status == 400 && o.users == users
    ensures username == "" || password == "" ==> o.reply == Reply(400, Refused(MissingCredentials))
    ensures username != "" && password != "" && username in users ==> o.reply == Reply(400, Refused(UsernameTaken))
    ensures username in users ==> o.users == users
    ensures WellFormed(users) ==> WellFormed(o.users)
  {
    if username == "" || password == "" then
      Outcome(Reply(400, Refused(MissingCredentials)), users, false)
    else if username in users then
      Outcome(Reply(400, Refused(UsernameTaken)), users, false)
    else
      Outcome(Reply(201, Registered(UserView(username, InitialCredits))),
              users[username := User(username, password, InitialCredits)], false)
  }

  /** POST /api/login (server.js:71-86). */
  function Login(users: Users, username: string, password: string): (o: Outcome)
    ensures o.users == users && !o.aiCalled
    ensures o.reply.status == 200 <==>
      ValidDocId(username) && username in users && users[username].password == password
    ensures o.reply.status == 200 ==>
      o.reply.body == LoggedIn(UserView(users[username].username, users[username].credits))
    ensures ValidDocId(username) && o.reply.status != 200 ==> o.reply == Reply(401, Refused(WrongCredentials))
    ensures !ValidDocId(username) ==> o.reply == Reply(500, Refused(InternalError))
  {
    if !ValidDocId(username) then
      Outcome(Reply(500, Refused(InternalError)), users, false)
    else if username !in users || users[username].password != password then
      Outcome(Reply(401, Refused(WrongCredentials)), users, false)
    else
      var user := users[username];
      Outcome(Reply(200, LoggedIn(UserView(user.username, user.credits))), users, false)
  }

  /** GET /api/user/:username (server.js:88-100). */
  function GetUser(users: Users, username: string): (o: Outcome)
    ensures o.users == users && !o.aiCalled
    ensures o.reply.status == 200 <==> ValidDocId(username) && username in users
    ensures o.reply.status == 200 ==>
      o.reply.body == Profile(UserView(users[username].username, users[username].credits))
    ensures ValidDocId(username) && username !in users ==> o.reply == Reply(404, Refused(NoSuchUser))
    ensures !ValidDocId(username) ==> o.reply == Reply(500, Refused(InternalError))
  {
    if !ValidDocId(username) then
      Outcome(Reply(500, Refused(InternalError)), users, false)
    else if username !in users then
      Outcome(Reply(404, Refused(NoSuchUser)), users, false)
    else
      var user := users[username];
      Outcome(Reply(200, Profile(UserView(user.username, user.credits))), users, false)
  }

  /**
   * POST /api/alipay-payment-notify (server.js:125-149). `signatureValid` is
   * what the SDK's signature check answers; `passbackUser` is the username
   * decoded from `passback_params`, None when decoding or parsing throws.
   * Updating a record that does not exist throws, which answers 500. No
   * order is remembered, so a repeated notification credits again.
   */
  function Notify(users: Users, signatureValid: bool, tradeStatus: string, passbackUser: Option<string>): (o: Outcome)
    ensures !o.aiCalled
    ensures !signatureValid ==> o.reply == Reply(400, PlainText("failure")) && o.users == users
    ensures signatureValid && !IsPaid(tradeStatus) ==> o.reply == Reply(200, PlainText("success")) && o.users == users
    ensures signatureValid && IsPaid(tradeStatus) ==>
      if passbackUser.Some? && ValidDocId(passbackUser.value) && passbackUser.value in users then
        o.reply == Reply(200, PlainText("success")) &&
        o.users == Increment(users, passbackUser.value, TopUpCredits)
      else
        o.reply == Reply(500, PlainText("failure")) && o.users == users
    ensures WellFormed(users) ==> WellFormed(o.users)
  {
    if !signatureValid then
      Outcome(Reply(400, PlainText("failure")), users, false)
    else if !IsPaid(tradeStatus) then
      Outcome(Reply(200, PlainText("success")), users, false)
    else
      match passbackUser
      case None => Outcome(Reply(500, PlainText("failure")), users, false)
      case Some(name) =>
        if !ValidDocId(name) || name !in users then
          Outcome(Reply(500, PlainText("failure")), users, false)
        else
          Outcome(Reply(200, PlainText("success")), Increment(users, name, TopUpCredits), false)
  }

  /**
   * POST /api/generate-comment (server.js:152-175). `profiles` is None when
   * the request has no `studentProfiles` (reading its length throws); `ai`
   * is how the model call ends, and matters only when the model is called.
   */
  function GenerateComment(users: Users, username: string, profiles: Option<seq<StudentProfile>>, ai: AiReply): (o: Outcome)
    ensures o.aiCalled <==>
      ValidDocId(username) && username in users && profiles.Some? &&
      users[username].credits >= |profiles.value|
    ensures !o.aiCalled || ai.Threw? ==> o.users == users
    ensures !ValidDocId(username) ==> o.reply == Reply(500, Refused(InternalError))
    ensures ValidDocId(username) && username !in users ==> o.reply == Reply(401, Refused(NotLoggedIn))
    ensures ValidDocId(username) && username in users && profiles.None? ==>
      o.reply == Reply(500, Refused(InternalError))
    ensures (ValidDocId(username) && username in users && profiles.Some? &&
             users[username].credits < |profiles.value|) ==>
      o.reply == Reply(403, NotEnoughCredits(|profiles.value|, users[username].credits))
    ensures o.aiCalled && ai.Threw? ==> o.reply == Reply(500, Refused(InternalError))
    ensures o.aiCalled && ai.Returned? ==>
      o.reply == Reply(200, Generated(ai.value)) &&
      o.users == Increment(users, username, -|profiles.value|)
    ensures o.reply.status == 200 <==> o.aiCalled && ai.Returned?
    ensures WellFormed(users) ==> WellFormed(o.users)
  {
    if !ValidDocId(username) then
      Outcome(Reply(500, Refused(InternalError)), users, false)
    else if username !in users then
      Outcome(Reply(401, Refused(NotLoggedIn)), users, false)
    else if profiles.None? then
      Outcome(Reply(500, Refused(InternalError)), users, false)
    else
      var required := |profiles.value|;
      var user := users[username];
      if user.credits < required then
        Outcome(Reply(403, NotEnoughCredits(required, user.credits)), users, false)
      else
        match ai
        case Threw => Outcome(Reply(500, Refused(InternalError)), users, true)
        case Returned(result) =>
          Outcome(Reply(200, Generated(result)), Increment(users, username, -required), true)
  }

  /**
   * POST /api/generate-alternatives (server.js:177-191): only checks that
   * the user exists, then calls the model; it never reads or changes a
   * balance.
   */
  function GenerateAlternatives(users: Users, username: string, ai: AiReply): (o: Outcome)
    ensures o.users == users
    ensures o.aiCalled <==> ValidDocId(username) && username in users
    ensures !ValidDocId(username) ==> o.reply == Reply(500, Refused(InternalError))
    ensures ValidDocId(username) && username !in users ==> o.reply == Reply(401, Refused(NotLoggedIn))
    ensures o.aiCalled ==>
      o.reply == if ai.Returned? then Reply(200, Generated(ai.value)) else Reply(500, Refused(InternalError))
  {
    if !ValidDocId(username) then
      Outcome(Reply(500, Refused(InternalError)), users, false)
    else if username !in users then
      Outcome(Reply(401, Refused(NotLoggedIn)), users, false)
    else
      match ai
      case Threw => Outcome(Reply(500, Refused(InternalError)), users, true)
      case Returned(result) => Outcome(Reply(200, Generated(result)), users, true)
  }

  /** One request to one of the handlers, with what its collaborators answer. */
  datatype Request =
    | RegisterRequest(username: string, password: string)
    | LoginRequest(username: string, password: string)
    | GetUserRequest(username: string)
    | NotifyRequest(signatureValid: bool, tradeStatus: string, passbackUser: Option<string>)
    | CommentRequest(username: string, profiles: Option<seq<StudentProfile>>, ai: AiReply)
    | AlternativesRequest(username: string, ai: AiReply)

  function Handle(users: Users, req: Request): Outcome {
    match req
    case RegisterRequest(name, password) => Register(users, name, password)
    case LoginRequest(name, password) => Login(users, name, password)
    case GetUserRequest(name) => GetUser(users, name)
    case NotifyRequest(valid, status, passback) => Notify(users, valid, status, passback)
    case CommentRequest(name, profiles, ai) => GenerateComment(users, name, profiles, ai)
    case AlternativesRequest(name, ai) => GenerateAlternatives(users, name, ai)
  }

  /** The store after the requests have been handled one after the other. */
  function Run(users: Users, reqs: seq<Request>): Users
    decreases |reqs|
  {
    if reqs == [] then users else Run(Handle(users, reqs[0]).users, reqs[1..])
  }

  /**
   * No balance is ever negative, whatever requests arrive in whatever
   * order: every debit was checked against the balance it is taken from.
   */
  lemma {:induction false} RunKeepsWellFormed(users: Users, reqs: seq<Request>)
    requires WellFormed(users)
    ensures WellFormed(Run(users, reqs))
    ensures forall name :: name in Run(users, reqs) ==> Run(users, reqs)[name].credits >= 0
    decreases |reqs|
  {
    if reqs != [] {
      RunKeepsWellFormed(Handle(users, reqs[0]).users, reqs[1..]);
    }
  }

  /** `after` keeps every record of `before`, with the same name and password. */
  ghost predicate KeepsRecords(before: Users, after: Users) {
    forall name :: name in before ==>
      name in after && after[name].username == before[name].username &&
      after[name].password == before[name].password
  }

  /** No handler deletes a user or changes a password; only balances move. */
  lemma {:induction false} RunKeepsRecords(users: Users, reqs: seq<Request>)
    ensures KeepsRecords(users, Run(users, reqs))
    decreases |reqs|
  {
    if reqs != [] {
      var next := Handle(users, reqs[0]).users;
      assert KeepsRecords(users, next);
      RunKeepsRecords(next, reqs[1..]);
    }
  }

  /** A user's record after the requests of a run: a user's password never changes. */
  lemma LoginStillSucceeds(users: Users, reqs: seq<Request>, name: string, password: string)
    requires Login(users, name, password).reply.status == 200
    ensures Login(Run(users, reqs), name, password).reply.status == 200
  {
    RunKeepsRecords(users, reqs);
  }

  function Min(a: int, b: int): int {
    if a < b then a else b
  }

  /**
   * The store after k identical generate-comment requests of one user whose
   * model calls all return, and how many of them were charged.
   */
  function RepeatComment(users: Users, username: string, profiles: seq<StudentProfile>, result: Option<Json>, k: nat): (Users, nat)
  {
    if k == 0 then (users, 0)
    else
      var (before, charged) := RepeatComment(users, username, profiles, result, k - 1);
      var o := GenerateComment(before, username, Some(profiles), Returned(result));
      (o.users, if o.reply.status == 200 then charged + 1 else charged)
  }

  /**
   * The arithmetic of one more request: after c = min(k - 1, b / n) charges
   * of n credits from a balance b, what is left covers another charge
   * exactly when fewer than b / n charges were made.
   */
  lemma ChargeStep(n: int, b: int, k: int)
    requires n >= 1 && b >= 0 && k >= 1
    ensures var c := Min(k - 1, b / n);
      (b - n * c >= n <==> k - 1 < b / n) &&
      b - n * c - n == b - n * (c + 1) &&
      (k - 1 < b / n ==> c + 1 == Min(k, b / n)) &&
      (k - 1 >= b / n ==> c == Min(k, b / n))
  {
    var m := b / n;
    assert n * m <= b < n * m + n;
    if k - 1 < m {
      assert n * (k - 1) + n == n * k;
      assert n * k <= n * m by {
        assert n * m - n * k == n * (m - k);
      }
    }
  }

  /**
   * Requests that each cost n credits succeed floor(balance / n) times at
   * most: of k requests from a balance b, min(k, b / n) are charged and the
   * balance falls by exactly n for each of them.
   */
  lemma {:induction false} RepeatedCommentsNeverOverspend(users: Users, username: string, profiles: seq<StudentProfile>, result: Option<Json>, k: nat)
    requires WellFormed(users) && username in users && |profiles| >= 1
    ensures var (after, charged) := RepeatComment(users, username, profiles, result, k);
      WellFormed(after) && username in after &&
      charged == Min(k, users[username].credits / |profiles|) &&
      after[username].credits == users[username].credits - |profiles| * charged
  {
    if k > 0 {
      RepeatedCommentsNeverOverspend(users, username, profiles, result, k - 1);
      ChargeStep(|profiles|, users[username].credits, k);
    }
  }

  /** The scenario of a user with 2 credits who asks for 3 comments. */
  lemma ShortOfCreditsIsRefused(users: Users, username: string, profiles: seq<StudentProfile>, ai: AiReply)
    requires username in users && username != "" && users[username].credits == 2 && |profiles| == 3
    ensures var o := GenerateComment(users, username, Some(profiles), ai);
      o.reply == Reply(403, NotEnoughCredits(3, 2)) && !o.aiCalled && o.users[username].credits == 2
  {
  }

  /** Registering a taken name fails and leaves the first registration as it was. */
  lemma SecondRegistrationFails(users: Users, username: string, first: string, second: string)
    requires username != "" && first != "" && second != "" && username !in users
    ensures var once := Register(users, username, first).users;
      var o := Register(once, username, second);
      o.reply == Reply(400, Refused(UsernameTaken)) &&
      o.users[username] == User(username, first, InitialCredits)
  {
  }

  /** A repeated paid notification credits the user a second time. */
  lemma DuplicateNotificationCreditsTwice(users: Users, username: string, tradeStatus: string)
    requires username in users && username != "" && IsPaid(tradeStatus)
    ensures var once := Notify(users, true, tradeStatus, Some(username)).users;
      var twice := Notify(once, true, tradeStatus, Some(username)).users;
      username in twice && twice[username].credits == users[username].credits + 2 * TopUpCredits &&
      OnlyChanged(users, twice, username)
  {
  }
}
