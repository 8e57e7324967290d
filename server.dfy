/**
 * The route handlers of server.js as methods of one object that owns the
 * `users` collection. Each method goes through the handler's steps in the
 * handler's order and is proved to end exactly as the Ledger function of the
 * same name says.
 */
module Server {
  import opened Wrappers
  import opened JsonValues
  import opened Extraction
  import opened Ledger

  class UserStore {
    /** The `users` collection: username to record. */
    var users: Users

    ghost predicate Valid()
      reads this
    {
      WellFormed(users)
    }

    constructor ()
      ensures Valid() && users == map[]
    {
      users := map[];
    }

    /** POST /api/register: store a new record with 50 credits. */
    method Register(username: string, password: string) returns (reply: Reply)
      requires Valid()
      modifies this
      ensures Valid()
      ensures Ledger.Register(old(users), username, password) == Outcome(reply, users, false)
    {
      if username == "" || password == "" {
        return Reply(400, Refused(MissingCredentials));
      }
      if username in users {
        return Reply(400, Refused(UsernameTaken));
      }
      users := users[username := User(username, password, InitialCredits)];
      reply := Reply(201, Registered(UserView(username, InitialCredits)));
    }

    /** POST /api/login: compare the stored password; reads only. */
    method Login(username: string, password: string) returns (reply: Reply)
      requires Valid()
      ensures reply.status == 200 <==> username in users && users[username].password == password
      ensures reply == Ledger.Login(users, username, password).reply
    {
      if !ValidDocId(username) {
        return Reply(500, Refused(InternalError));
      }
      if username !in users || users[username].password != password {
        return Reply(401, Refused(WrongCredentials));
      }
      var user := users[username];
      reply := Reply(200, LoggedIn(UserView(user.username, user.credits)));
    }

    /** GET /api/user/:username: the name and balance of a user; reads only. */
    method GetUser(username: string) returns (reply: Reply)
      requires Valid()
      ensures reply.status == 200 <==> username in users
      ensures reply == Ledger.GetUser(users, username).reply
    {
      if !ValidDocId(username) {
        return Reply(500, Refused(InternalError));
      }
      if username !in users {
        return Reply(404, Refused(NoSuchUser));
      }
      var user := users[username];
      reply := Reply(200, Profile(UserView(user.username, user.credits)));
    }

    /** POST /api/alipay-payment-notify: add 50 credits for a paid trade. */
    method NotifyPayment(signatureValid: bool, tradeStatus: string, passbackUser: Option<string>) returns (reply: Reply)
      requires Valid()
      modifies this
      ensures Valid()
      ensures Notify(old(users), signatureValid, tradeStatus, passbackUser) == Outcome(reply, users, false)
    {
      if !signatureValid {
        return Reply(400, PlainText("failure"));
      }
      if IsPaid(tradeStatus) {
        if passbackUser.None? {
          return Reply(500, PlainText("failure"));
        }
        var name := passbackUser.value;
        if !ValidDocId(name) || name !in users {
          return Reply(500, PlainText("failure"));
        }
        users := Increment(users, name, TopUpCredits);
      }
      reply := Reply(200, PlainText("success"));
    }

    /**
     * POST /api/generate-comment: check the user, check the balance, call
     * the model, and debit one credit per profile once the call has
     * returned. `raw` is the vendor's reply text (None when the request
     * fails) and `parse` stands for `JSON.parse`; `aiCalled` tells whether
     * the model was called.
     */
    method GenerateComment(username: string, profiles: Option<seq<StudentProfile>>,
                           raw: Option<string>, parse: string -> Option<Json>)
      returns (reply: Reply, aiCalled: bool)
      requires Valid()
      modifies this
      ensures Valid()
      ensures Ledger.GenerateComment(old(users), username, profiles, CallAI(raw, parse)) == Outcome(reply, users, aiCalled)
    {
      aiCalled := false;
      if !ValidDocId(username) {
        return Reply(500, Refused(InternalError)), false;
      }
      if username !in users {
        return Reply(401, Refused(NotLoggedIn)), false;
      }
      var user := users[username];
      if profiles.None? {
        return Reply(500, Refused(InternalError)), false;
      }
      var required := |profiles.value|;
      if user.credits < required {
        return Reply(403, NotEnoughCredits(required, user.credits)), false;
      }
      aiCalled := true;
      var ai := CallAI(raw, parse);
      if ai.Threw? {
        return Reply(500, Refused(InternalError)), true;
      }
      users := Increment(users, username, -required);
      reply := Reply(200, Generated(ai.value));
    }

    /**
     * POST /api/generate-alternatives: check the user and call the model;
     * no balance is read or changed.
     */
    method GenerateAlternatives(username: string, raw: Option<string>, parse: string -> Option<Json>)
      returns (reply: Reply, aiCalled: bool)
      requires Valid()
      ensures aiCalled <==> username in users
      ensures Ledger.GenerateAlternatives(users, username, CallAI(raw, parse)) == Outcome(reply, users, aiCalled)
    {
      if !ValidDocId(username) {
        return Reply(500, Refused(InternalError)), false;
      }
      if username !in users {
        return Reply(401, Refused(NotLoggedIn)), false;
      }
      aiCalled := true;
      var ai := CallAI(raw, parse);
      reply := if ai.Returned? then Reply(200, Generated(ai.value)) else Reply(500, Refused(InternalError));
    }
  }
}
