// The console task's session state: who is logged in, and the handling of one
// command line once somebody is.

module ConsoleSession {
  import opened SystemTypes
  import opened Grammar
  import opened Interpreter
  import opened Authentication

  /** Console state shared by the interpreter task: the user table, who is logged in, and whether anybody is. */
  class Console {
    var users: seq<UserData>
    var authenticated: bool
    var activeUser: UserData

    ghost predicate Valid()
      reads this
    {
      |users| == USER_SLOTS
    }

    constructor (table: seq<UserData>)
      requires |table| == USER_SLOTS
      ensures Valid() && users == table && !authenticated && activeUser == EmptyUser
    {
      users := table;
      authenticated := false;
      activeUser := EmptyUser;
    }

    /** The login loop: on success the matching slot becomes the active user. */
    method Login(lines: seq<string>) returns (consumed: nat, failures: nat)
      requires Valid() && !authenticated
      modifies this
      ensures Valid() && users == old(users)
      ensures var r := LoginFrom(users, lines, 0, 0);
        authenticated == r.LoggedIn? && failures == r.failures &&
        (r.LoggedIn? ==> activeUser == users[r.slot] && consumed == r.passLine + 1) &&
        (r.Waiting? ==> activeUser == old(activeUser) && consumed == |lines|)
    {
      var slot;
      slot, consumed, failures := Authenticate(users, lines);
      if slot.Some? {
        authenticated := true;
        activeUser := users[slot.value];
      }
    }

    /**
     * One command line of an authenticated session: it is split into words and
     * resolved with the active user's permissions; the logout command ends the session.
     */
    method HandleLine(line: string) returns (outcome: Outcome)
      requires Valid() && authenticated
      modifies this
      ensures Valid() && users == old(users) && activeUser == old(activeUser)
      ensures outcome == Dispatch(Words(line), activeUser.permissions)
      ensures authenticated <==> !(outcome.Executed? && outcome.handler == Logout)
    {
      var tokens, warnings := Tokenize(line);
      outcome := Interpret(tokens, activeUser.permissions);
      if outcome.Executed? && outcome.handler == Logout {
        authenticated := false;
      }
    }
  }
}
