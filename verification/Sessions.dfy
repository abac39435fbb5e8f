/**
 Login sessions (src/lib/auth.ts) as a refinement of their history: whether a token is accepted can be read off the
 calls made so far, although rows are deleted in several places and expired rows only when somebody else logs in.
 Times are whole seconds.  Tokens are arbitrary texts; where they must be fresh, the statement says so.
 */
module Sessions {
  import opened Options

  const SESSION_DURATION: int := 7 * 24 * 60 * 60

  datatype Session = Session(user: nat, expiresAt: int)
  datatype Tables = Tables(users: set<nat>, sessions: map<string, Session>)

  datatype Call =
    | CreateUser(user: nat)
    | CreateSession(token: string, user: nat, now: int)
    | DestroySession(token: string)
    | DestroyAllUserSessions(user: nat)
    | DeleteUser(user: nat)

  /******* The calls *******/

  /** A session is inserted unless the foreign key or the unique token forbids it; then the call throws. */
  predicate CanInsert(t: Tables, token: string, user: nat) { user in t.users && token !in t.sessions }

  function Without(sessions: map<string, Session>, user: nat): map<string, Session>
  {
    map token | token in sessions && sessions[token].user != user :: sessions[token]
  }

  function Unexpired(sessions: map<string, Session>, now: int): map<string, Session>
  {
    map token | token in sessions && !(sessions[token].expiresAt < now) :: sessions[token]
  }

  function After(t: Tables, call: Call): Tables
  {
    match call
    case CreateUser(user) => t.(users := t.users + {user})
    case CreateSession(token, user, now) =>
      if CanInsert(t, token, user)
      then t.(sessions := Unexpired(t.sessions[token := Session(user, now + SESSION_DURATION)], now))
      else t
    case DestroySession(token) => t.(sessions := t.sessions - {token})
    case DestroyAllUserSessions(user) => t.(sessions := Without(t.sessions, user))
    case DeleteUser(user) => Tables(t.users - {user}, Without(t.sessions, user))
  }

  /** The user the token stands for; the row is joined with its user. */
  function Validate(t: Tables, token: string, now: int): Option<nat>
  {
    if token == "" then None
    else if token in t.sessions && t.sessions[token].user in t.users && t.sessions[token].expiresAt > now
    then Some(t.sessions[token].user)
    else None
  }

  /** `names` are the users by id; ids are never reused. */
  class AuthStore {
    var names: map<nat, string>
    var nextUser: nat
    var sessions: map<string, Session>

    function Value(): Tables
      reads this
    {
      Tables(names.Keys, sessions)
    }

    ghost predicate Valid()
      reads this
    {
      && (forall id | id in names :: id < nextUser)
      && forall a, b | a in names && b in names && names[a] == names[b] :: a == b
    }

    constructor ()
      ensures Valid() && Value() == EMPTY
    {
      names, nextUser, sessions := map[], 0, map[];
    }

    /** Gives the id of the new user, or None if the call throws: the password is too short or the name is taken. */
    method CreateUser(name: string, password: string) returns (id: Option<nat>)
      requires Valid()
      modifies this
      ensures Valid()
      ensures id.None? <==> |password| < 12 || name in old(names).Values
      ensures id.None? ==> Value() == old(Value()) && names == old(names)
      ensures id.Some? ==>
        && id.value !in old(names) && names == old(names)[id.value := name]
        && Value() == After(old(Value()), Call.CreateUser(id.value))
    {
      if |password| < 12 {
        return None;
      }
      if name in names.Values {
        return None;
      }
      id := Some(nextUser);
      assert nextUser !in names;
      names := names[nextUser := name];
      nextUser := nextUser + 1;
    }

    /** Gives the expiry, or None if the insertion throws. */
    method CreateSession(token: string, user: nat, now: int) returns (expiresAt: Option<int>)
      modifies this`sessions
      ensures Value() == After(old(Value()), Call.CreateSession(token, user, now))
      ensures expiresAt.Some? <==> CanInsert(old(Value()), token, user)
      ensures expiresAt.Some? ==> expiresAt.value == now + SESSION_DURATION && token in sessions
    {
      if user !in names || token in sessions {
        return None;
      }
      sessions := sessions[token := Session(user, now + SESSION_DURATION)];
      sessions := Unexpired(sessions, now);
      expiresAt := Some(now + SESSION_DURATION);
    }

    method ValidateSession(token: string, now: int) returns (r: Option<nat>)
      ensures r == Validate(Value(), token, now)
    {
      if token == "" {
        return None;
      }
      if token in sessions && sessions[token].user in names && sessions[token].expiresAt > now {
        return Some(sessions[token].user);
      }
      return None;
    }

    method DestroySession(token: string)
      modifies this`sessions
      ensures Value() == After(old(Value()), Call.DestroySession(token))
    {
      sessions := sessions - {token};
    }

    method DestroyAllUserSessions(user: nat)
      modifies this`sessions
      ensures Value() == After(old(Value()), Call.DestroyAllUserSessions(user))
    {
      sessions := Without(sessions, user);
    }

    method DeleteUser(user: nat) returns (deleted: bool)
      requires Valid()
      modifies this
      ensures Valid() && nextUser == old(nextUser)
      ensures Value() == After(old(Value()), Call.DeleteUser(user))
      ensures deleted <==> user in old(names)
    {
      DestroyAllUserSessions(user);
      deleted := user in names;
      names := names - {user};
    }
  }

  /******* Histories *******/

  const EMPTY: Tables := Tables({}, map[])

  function State(h: seq<Call>): Tables
  {
    if h == [] then EMPTY else After(State(h[..|h| - 1]), h[|h| - 1])
  }

  /** Call i created a session. */
  ghost predicate Created(h: seq<Call>, i: nat)
  {
    i < |h| && h[i].CreateSession? && CanInsert(State(h[..i]), h[i].token, h[i].user)
  }

  /** Call j removes the session that call i created: a logout, the end of its user, or a later login made after it
      had expired. */
  ghost predicate Removes(h: seq<Call>, i: nat, j: nat)
    requires i < |h| && j < |h| && h[i].CreateSession?
  {
    match h[j]
    case DestroySession(token) => token == h[i].token
    case DestroyAllUserSessions(user) => user == h[i].user
    case DeleteUser(user) => user == h[i].user
    case CreateSession(_, _, now) => Created(h, j) && now > h[i].now + SESSION_DURATION
    case CreateUser(_) => false
  }

  /** The row of call i is still there. */
  ghost predicate Lives(h: seq<Call>, token: string, i: nat)
  {
    Created(h, i) && h[i].token == token && forall j | i < j < |h| :: !Removes(h, i, j)
  }

  function RowOf(call: Call): Session
    requires call.CreateSession?
  {
    Session(call.user, call.now + SESSION_DURATION)
  }

  lemma SamePrefix(h: seq<Call>, i: nat)
    requires h != [] && i < |h| - 1
    ensures var g := h[..|h| - 1];
      g[i] == h[i] && (Created(h, i) <==> Created(g, i))
  {
    assert h[..|h| - 1][..i] == h[..i];
  }

  lemma LivesLonger(h: seq<Call>, token: string, i: nat)
    requires h != [] && i < |h| - 1
    ensures Lives(h, token, i) <==> Lives(h[..|h| - 1], token, i) && !Removes(h, i, |h| - 1)
  {
    var g := h[..|h| - 1];
    SamePrefix(h, i);
    forall j | i < j < |g| && h[i].CreateSession? ensures Removes(h, i, j) <==> Removes(g, i, j) {
      SamePrefix(h, j);
    }
  }

  /** The table holds exactly the rows that still live in the history. */
  lemma {:induction false} RowsAreLiving(h: seq<Call>, token: string)
    ensures forall i: nat :: Lives(h, token, i) ==>
      token in State(h).sessions && State(h).sessions[token] == RowOf(h[i])
    ensures token in State(h).sessions ==> exists i: nat :: Lives(h, token, i)
  {
    if h == [] { return; }
    var g, last, n := h[..|h| - 1], h[|h| - 1], |h| - 1;
    RowsAreLiving(g, token);
    forall i: nat | Lives(h, token, i) ensures token in State(h).sessions && State(h).sessions[token] == RowOf(h[i]) {
      if i < n { LivesLonger(h, token, i); }
    }
    if token in State(h).sessions {
      if token in State(g).sessions {
        var i: nat :| Lives(g, token, i);
        LivesLonger(h, token, i);
        assert Lives(h, token, i);
      } else {
        assert Lives(h, token, n);
      }
    }
  }

  lemma {:induction false} RowsHaveUsers(h: seq<Call>)
    ensures forall token | token in State(h).sessions :: State(h).sessions[token].user in State(h).users
  {
    if h != [] { RowsHaveUsers(h[..|h| - 1]); }
  }

  /** For every history, clock and tokens: a token is accepted as user u exactly when some call created a session for it
      and u that has not expired and that no later call removed. */
  lemma AcceptedExactly(h: seq<Call>, token: string, now: int, user: nat)
    ensures Validate(State(h), token, now) == Some(user) <==>
            token != "" && exists i: nat :: Lives(h, token, i) && h[i].user == user && now < h[i].now + SESSION_DURATION
  {
    RowsAreLiving(h, token);
    RowsHaveUsers(h);
  }

  /******* With a monotone clock and fresh tokens *******/

  predicate Monotone(h: seq<Call>, now: int)
  {
    && (forall i | 0 <= i < |h| && h[i].CreateSession? :: h[i].now <= now)
    && forall i, j | 0 <= i < j < |h| && h[i].CreateSession? && h[j].CreateSession? :: h[i].now <= h[j].now
  }

  predicate FreshTokens(h: seq<Call>)
  {
    forall i, j | 0 <= i < j < |h| && h[i].CreateSession? && h[j].CreateSession? :: h[i].token != h[j].token
  }

  /** The last of the calls that add or delete the user adds it. */
  predicate Registered(h: seq<Call>, user: nat)
  {
    h != [] &&
    var last := h[|h| - 1];
    if last == CreateUser(user) then true
    else if last == DeleteUser(user) then false
    else Registered(h[..|h| - 1], user)
  }

  lemma {:induction false} RegisteredUsers(h: seq<Call>, user: nat)
    ensures user in State(h).users <==> Registered(h, user)
  {
    if h != [] { RegisteredUsers(h[..|h| - 1], user); }
  }

  lemma {:induction false} NeverCreated(h: seq<Call>, token: string)
    requires forall i | 0 <= i < |h| && h[i].CreateSession? :: h[i].token != token
    ensures token !in State(h).sessions
  {
    if h != [] { NeverCreated(h[..|h| - 1], token); }
  }

  /** A login of the registered user, and no later logout, end of all its sessions or deletion of the user. */
  predicate LoggedIn(h: seq<Call>, token: string, user: nat, i: nat)
  {
    && i < |h| && h[i].CreateSession? && h[i].token == token && h[i].user == user && Registered(h[..i], user)
    && forall j | i < j < |h| ::
         h[j] != DestroySession(token) && h[j] != DestroyAllUserSessions(user) && h[j] != DeleteUser(user)
  }

  lemma FreshIsCreated(h: seq<Call>, i: nat)
    requires FreshTokens(h) && i < |h| && h[i].CreateSession?
    ensures Created(h, i) <==> Registered(h[..i], h[i].user)
  {
    RegisteredUsers(h[..i], h[i].user);
    NeverCreated(h[..i], h[i].token);
  }

  /** With a clock that does not go back, the removal of expired rows is never seen. */
  lemma ExpiryIsNotSeen(h: seq<Call>, token: string, user: nat, now: int, i: nat)
    requires Monotone(h, now) && FreshTokens(h)
    requires i < |h| && h[i].CreateSession? && now < h[i].now + SESSION_DURATION
    ensures LoggedIn(h, token, user, i) <==> Lives(h, token, i) && h[i].user == user
  {
    FreshIsCreated(h, i);
    forall j | i < j < |h|
      ensures Removes(h, i, j) <==>
              h[j] == DestroySession(h[i].token) || h[j] == DestroyAllUserSessions(h[i].user)
                || h[j] == DeleteUser(h[i].user)
    {
    }
  }

  /** `validateSession` answers from the calls alone: the token was created less than seven days ago for that user, and
      neither the token nor the user's sessions nor the user were destroyed since. */
  lemma AcceptedWithinSevenDays(h: seq<Call>, token: string, now: int, user: nat)
    requires Monotone(h, now) && FreshTokens(h)
    ensures Validate(State(h), token, now) == Some(user) <==>
            token != "" && exists i: nat :: LoggedIn(h, token, user, i) && now - h[i].now < 604_800
  {
    AcceptedExactly(h, token, now, user);
    if i: nat :| Lives(h, token, i) && h[i].user == user && now < h[i].now + SESSION_DURATION {
      ExpiryIsNotSeen(h, token, user, now, i);
      assert LoggedIn(h, token, user, i);
    }
    if i: nat :| LoggedIn(h, token, user, i) && now - h[i].now < 604_800 {
      ExpiryIsNotSeen(h, token, user, now, i);
      assert Lives(h, token, i);
    }
  }

  /** A clock that is set forward and back again shows the removal: the second login deletes a session that the clock
      then says is valid. */
  lemma ExpiryShowsWhenTheClockGoesBack()
    ensures var h := [CreateUser(1), CreateSession("a", 1, 0), CreateSession("b", 1, SESSION_DURATION + 1)];
      FreshTokens(h) && LoggedIn(h, "a", 1, 1) && Validate(State(h), "a", 10) == None
  {
    var h := [CreateUser(1), CreateSession("a", 1, 0), CreateSession("b", 1, SESSION_DURATION + 1)];
    assert h[..1] == [CreateUser(1)] && h[..1][..0] == [];
    assert Registered(h[..1], 1);
    assert h[..2][..1] == h[..1] && h[..2][1] == h[1];
    assert State(h[..1]).users == {1} && State(h[..1]).sessions == map[];
    assert State(h[..2]) == After(State(h[..1]), h[1]);
    assert Removes(h, 1, 2);
    assert !Lives(h, "a", 1);
    RowsAreLiving(h, "a");
  }
}
