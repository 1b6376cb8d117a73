/** User authentication: registered users with hashed passwords and a map of
    additional credentials (credential type to value, such as an API token),
    and a table of active sessions binding fresh tokens to users. */
module UserAuthentication {
  import opened Common

  datatype UserDoc = UserDoc(id: Id, username: string, hashedPassword: string, credentials: map<string, string>)

  datatype Session = Session(token: Id, user: Id)

  datatype AuthError =
    | UsernameTaken
    | InvalidLogin
    | InvalidSession
    | EmptyCredentialType
    | CredentialNotFound
    | SessionOrCredentialNotFound
    | UserNotFound

  // --------------------------------------------------------------- lookups

  /** Index of the first user with this username, or |users|. */
  function UserNamed(users: seq<UserDoc>, username: string): (k: nat)
    ensures k <= |users|
    ensures k < |users| ==> users[k].username == username
    ensures forall j :: 0 <= j < k ==> users[j].username != username
  {
    FirstIndex(users, (u: UserDoc) => u.username == username)
  }

  /** Index of the first user with this id, or |users|. */
  function UserIndex(users: seq<UserDoc>, id: Id): (k: nat)
    ensures k <= |users|
    ensures k < |users| ==> users[k].id == id
    ensures forall j :: 0 <= j < k ==> users[j].id != id
  {
    FirstIndex(users, (u: UserDoc) => u.id == id)
  }

  /** Index of the first session with this token, or |sessions|. */
  function SessionIndex(sessions: seq<Session>, token: Id): (k: nat)
    ensures k <= |sessions|
    ensures k < |sessions| ==> sessions[k].token == token
    ensures forall j :: 0 <= j < k ==> sessions[j].token != token
  {
    FirstIndex(sessions, (s: Session) => s.token == token)
  }

  /** Appending a session whose token no session has keeps the tokens
      distinct, and the new token then names the appended session. */
  lemma AppendFreshSession(sessions: seq<Session>, s: Session)
    requires Pairwise(sessions, DifferentToken)
    requires forall j :: 0 <= j < |sessions| ==> sessions[j].token < s.token
    ensures Pairwise(sessions + [s], DifferentToken)
    ensures SessionIndex(sessions + [s], s.token) == |sessions|
  {
    var sessions' := sessions + [s];
    forall i, j | 0 <= i < j < |sessions'| ensures DifferentToken(sessions'[i], sessions'[j]) {
      if j < |sessions| {
        assert DifferentToken(sessions[i], sessions[j]);
      }
    }
    assert forall j :: 0 <= j < |sessions| ==> sessions'[j].token != s.token;
    assert sessions'[|sessions|].token == s.token;
  }

  function DifferentUsername(a: UserDoc, b: UserDoc): bool { a.username != b.username }
  function DifferentUserId(a: UserDoc, b: UserDoc): bool { a.id != b.id }
  function DifferentToken(a: Session, b: Session): bool { a.token != b.token }

  // ----------------------------------------------------------- credentials

  /** `additionalCredentials?.[type]` read for truthiness: a missing key and
      a stored empty string both count as no credential. */
  function Credential(creds: map<string, string>, credentialType: string): (r: Option<string>)
    ensures r.Some? <==> credentialType in creds && creds[credentialType] != ""
    ensures r.Some? ==> r.value == creds[credentialType]
  {
    if credentialType in creds && creds[credentialType] != "" then Some(creds[credentialType]) else None
  }

  /** After storing v under t, reading t gives v unless v is empty, and every
      other type reads as before. */
  lemma StoreThenRead(creds: map<string, string>, t: string, v: string, other: string)
    ensures Credential(creds[t := v], t) == (if v == "" then None else Some(v))
    ensures other != t ==> Credential(creds[t := v], other) == Credential(creds, other)
  {
  }

  /** Overwriting a type that already holds a value adds no type. */
  lemma OverwriteKeepsTypes(creds: map<string, string>, t: string, v: string)
    requires Credential(creds, t).Some?
    ensures creds[t := v].Keys == creds.Keys
  {
  }

  /** After deleting t it reads as absent and is no longer a type; the others
      are unaffected. */
  lemma RemoveThenRead(creds: map<string, string>, t: string, other: string)
    ensures Credential(creds - {t}, t).None? && t !in (creds - {t}).Keys
    ensures other != t ==> Credential(creds - {t}, other) == Credential(creds, other)
  {
  }

  /** The users with one user's credential map replaced, the others as they were. */
  function WithCredentials(users: seq<UserDoc>, k: nat, creds: map<string, string>): (r: seq<UserDoc>)
    requires k < |users|
    ensures |r| == |users| && r[k] == users[k].(credentials := creds)
    ensures forall j :: 0 <= j < |users| && j != k ==> r[j] == users[j]
  {
    users[k := users[k].(credentials := creds)]
  }

  // ------------------------------------------------------------ the concept

  class UserAuthenticationConcept {
    var users: seq<UserDoc>
    var sessions: seq<Session>
    var nextId: Id
    /** hashPassword, and comparePassword(password, hashed). */
    const hash: string -> string
    const compare: (string, string) -> bool

    ghost predicate Valid()
      reads this
    {
      && (forall i :: 0 <= i < |users| ==> users[i].id < nextId)
      && (forall i :: 0 <= i < |sessions| ==> sessions[i].token < nextId)
      && Pairwise(users, DifferentUsername)
      && Pairwise(users, DifferentUserId)
      && Pairwise(sessions, DifferentToken)
      && (forall i :: 0 <= i < |sessions| ==> UserIndex(users, sessions[i].user) < |users|)
      && (forall p :: compare(p, hash(p)))
    }

    constructor (hash: string -> string, compare: (string, string) -> bool)
      requires forall p :: compare(p, hash(p))
      ensures Valid() && users == [] && sessions == []
      ensures this.hash == hash && this.compare == compare
    {
      this.hash, this.compare := hash, compare;
      users, sessions, nextId := [], [], 0;
    }

    /** register: a new username gets a user with the hashed password and no
        credentials; a taken one changes nothing. */
    method Register(username: string, password: string) returns (r: Result<Id, AuthError>)
      requires Valid()
      modifies this
      ensures Valid() && sessions == old(sessions)
      ensures UserNamed(old(users), username) < |old(users)| ==>
        r == Err(UsernameTaken) && users == old(users) && nextId == old(nextId)
      ensures UserNamed(old(users), username) == |old(users)| ==>
        r == Ok(old(nextId)) && nextId == old(nextId) + 1 &&
        users == old(users) + [UserDoc(old(nextId), username, hash(password), map[])]
    {
      if UserNamed(users, username) < |users| {
        return Err(UsernameTaken);
      }
      var u := UserDoc(nextId, username, hash(password), map[]);
      var users' := users + [u];
      assert Pairwise(users', DifferentUsername) && Pairwise(users', DifferentUserId) by {
        forall i, j | 0 <= i < j < |users'|
          ensures DifferentUsername(users'[i], users'[j]) && DifferentUserId(users'[i], users'[j])
        {
          if j < |users| {
            assert DifferentUsername(users[i], users[j]) && DifferentUserId(users[i], users[j]);
          }
        }
      }
      forall i | 0 <= i < |sessions| ensures UserIndex(users', sessions[i].user) < |users'| {
        KeepUserIndex(users, u, sessions[i].user);
      }
      users := users';
      r := Ok(nextId);
      nextId := nextId + 1;
    }

    /** login: an unknown username and a wrong password give the same error
        and no session; otherwise exactly one fresh session for that user. */
    method Login(username: string, password: string) returns (r: Result<Id, AuthError>)
      requires Valid()
      modifies this
      ensures Valid() && users == old(users)
      ensures var k := UserNamed(users, username);
        if k == |users| || !compare(password, users[k].hashedPassword)
        then r == Err(InvalidLogin) && sessions == old(sessions) && nextId == old(nextId)
        else r == Ok(old(nextId)) && nextId == old(nextId) + 1 &&
             sessions == old(sessions) + [Session(old(nextId), users[k].id)]
      ensures r.Ok? ==> GetCurrentUser(r.value) == Ok(users[UserNamed(users, username)].id)
    {
      var k := UserNamed(users, username);
      if k == |users| {
        return Err(InvalidLogin);
      }
      if !compare(password, users[k].hashedPassword) {
        return Err(InvalidLogin);
      }
      var sessions' := sessions + [Session(nextId, users[k].id)];
      AppendFreshSession(sessions, Session(nextId, users[k].id));
      sessions := sessions';
      r := Ok(nextId);
      nextId := nextId + 1;
    }

    /** logout: deletes the session with that token, or reports that there is
        none; either way the token no longer names a session. */
    method Logout(token: Id) returns (r: Result<bool, AuthError>)
      requires Valid()
      modifies this
      ensures Valid() && users == old(users) && nextId == old(nextId)
      ensures var k := SessionIndex(old(sessions), token);
        if k == |old(sessions)| then r == Err(InvalidSession) && sessions == old(sessions)
        else r == Ok(true) && sessions == old(sessions)[..k] + old(sessions)[k + 1..]
      ensures GetCurrentUser(token) == Err(InvalidSession)
    {
      var k := SessionIndex(sessions, token);
      if k == |sessions| {
        return Err(InvalidSession);
      }
      var sessions' := sessions[..k] + sessions[k + 1..];
      RemoveSession(sessions, k);
      sessions := sessions';
      r := Ok(true);
    }

    /** getCurrentUser: the user of the session with that token. */
    function GetCurrentUser(token: Id): (r: Result<Id, AuthError>)
      reads this
      ensures r.Err? ==> r.error == InvalidSession
      ensures r.Ok? <==> exists i :: 0 <= i < |sessions| && sessions[i].token == token
      ensures r.Ok? ==> exists i :: 0 <= i < |sessions| && sessions[i].token == token && sessions[i].user == r.value
    {
      var k := SessionIndex(sessions, token);
      if k == |sessions| then Err(InvalidSession) else Ok(sessions[k].user)
    }

    /** storeCredential: sets one type in the session user's map; a session
        whose user is missing succeeds without change. */
    method StoreCredential(token: Id, credentialType: string, value: string) returns (r: Result<bool, AuthError>)
      requires Valid()
      modifies this
      ensures Valid() && sessions == old(sessions) && nextId == old(nextId)
      ensures var s := SessionIndex(sessions, token);
        if s == |sessions| then r == Err(InvalidSession) && users == old(users)
        else if IsBlank(credentialType) then r == Err(EmptyCredentialType) && users == old(users)
        else
          var k := UserIndex(old(users), sessions[s].user);
          r == Ok(true) &&
          users == if k == |old(users)| then old(users)
                   else WithCredentials(old(users), k, old(users)[k].credentials[credentialType := value])
      ensures r.Ok? && value != "" ==> RetrieveCredential(token, credentialType) == Ok(value)
      ensures r.Ok? && value == "" ==> RetrieveCredential(token, credentialType) == Err(SessionOrCredentialNotFound)
    {
      var s := SessionIndex(sessions, token);
      if s == |sessions| {
        return Err(InvalidSession);
      }
      if IsBlank(credentialType) {
        return Err(EmptyCredentialType);
      }
      var k := UserIndex(users, sessions[s].user);
      if k < |users| {
        SetCredentials(k, users[k].credentials[credentialType := value]);
      }
      r := Ok(true);
    }

    /** retrieveCredential: the value stored under the type for the session's
        user; a missing session, user or value is one error. */
    function RetrieveCredential(token: Id, credentialType: string): (r: Result<string, AuthError>)
      reads this
      ensures r.Err? ==> r.error == SessionOrCredentialNotFound
      ensures r.Ok? <==>
        var s := SessionIndex(sessions, token);
        s < |sessions| && UserIndex(users, sessions[s].user) < |users| &&
        Credential(users[UserIndex(users, sessions[s].user)].credentials, credentialType).Some?
      ensures r.Ok? ==> r.value != ""
    {
      var s := SessionIndex(sessions, token);
      if s == |sessions| then Err(SessionOrCredentialNotFound)
      else
        var k := UserIndex(users, sessions[s].user);
        if k == |users| then Err(SessionOrCredentialNotFound)
        else match Credential(users[k].credentials, credentialType)
          case None => Err(SessionOrCredentialNotFound)
          case Some(v) => Ok(v)
    }

    /** updateCredential: overwrites a type that already holds a non-empty
        value; it never adds a type. */
    method UpdateCredential(token: Id, credentialType: string, value: string) returns (r: Result<bool, AuthError>)
      requires Valid()
      modifies this
      ensures Valid() && sessions == old(sessions) && nextId == old(nextId)
      ensures var s := SessionIndex(sessions, token);
        if s == |sessions| then r == Err(InvalidSession) && users == old(users)
        else if IsBlank(credentialType) then r == Err(EmptyCredentialType) && users == old(users)
        else
          var k := UserIndex(old(users), sessions[s].user);
          if k == |old(users)| || Credential(old(users)[k].credentials, credentialType).None?
          then r == Err(CredentialNotFound) && users == old(users)
          else r == Ok(true) && users == WithCredentials(old(users), k, old(users)[k].credentials[credentialType := value])
      ensures |users| == |old(users)|
      ensures forall i :: 0 <= i < |users| ==> users[i].credentials.Keys == old(users)[i].credentials.Keys
    {
      var s := SessionIndex(sessions, token);
      if s == |sessions| {
        return Err(InvalidSession);
      }
      if IsBlank(credentialType) {
        return Err(EmptyCredentialType);
      }
      var k := UserIndex(users, sessions[s].user);
      if k == |users| || Credential(users[k].credentials, credentialType).None? {
        return Err(CredentialNotFound);
      }
      OverwriteKeepsTypes(users[k].credentials, credentialType, value);
      SetCredentials(k, users[k].credentials[credentialType := value]);
      r := Ok(true);
    }

    /** deleteCredential: removes a type that holds a non-empty value; the
        type then reads as absent and is no longer listed. */
    method DeleteCredential(token: Id, credentialType: string) returns (r: Result<bool, AuthError>)
      requires Valid()
      modifies this
      ensures Valid() && sessions == old(sessions) && nextId == old(nextId)
      ensures var s := SessionIndex(sessions, token);
        if s == |sessions| then r == Err(SessionOrCredentialNotFound) && users == old(users)
        else
          var k := UserIndex(old(users), sessions[s].user);
          if k == |old(users)| || Credential(old(users)[k].credentials, credentialType).None?
          then r == Err(SessionOrCredentialNotFound) && users == old(users)
          else r == Ok(true) && users == WithCredentials(old(users), k, old(users)[k].credentials - {credentialType})
      ensures r.Ok? ==> RetrieveCredential(token, credentialType).Err?
      ensures r.Ok? ==> GetCredentialTypes(token).Ok? && credentialType !in GetCredentialTypes(token).value
    {
      var s := SessionIndex(sessions, token);
      if s == |sessions| {
        return Err(SessionOrCredentialNotFound);
      }
      var k := UserIndex(users, sessions[s].user);
      if k == |users| || Credential(users[k].credentials, credentialType).None? {
        return Err(SessionOrCredentialNotFound);
      }
      SetCredentials(k, users[k].credentials - {credentialType});
      r := Ok(true);
    }

    /** getCredentialTypes: the types in the session user's map. */
    function GetCredentialTypes(token: Id): (r: Result<set<string>, AuthError>)
      reads this
      ensures SessionIndex(sessions, token) == |sessions| ==> r == Err(InvalidSession)
      ensures var s := SessionIndex(sessions, token);
        s < |sessions| && UserIndex(users, sessions[s].user) == |users| ==> r == Err(UserNotFound)
      ensures r.Ok? <==>
        var s := SessionIndex(sessions, token);
        s < |sessions| && UserIndex(users, sessions[s].user) < |users|
      ensures r.Ok? ==>
        var s := SessionIndex(sessions, token);
        s < |sessions| && UserIndex(users, sessions[s].user) < |users| &&
        r.value == users[UserIndex(users, sessions[s].user)].credentials.Keys
    {
      var s := SessionIndex(sessions, token);
      if s == |sessions| then Err(InvalidSession)
      else
        var k := UserIndex(users, sessions[s].user);
        if k == |users| then Err(UserNotFound) else Ok(users[k].credentials.Keys)
    }

    /** The `$set`/`$unset` on one user's credential map. */
    method SetCredentials(k: nat, creds: map<string, string>)
      requires Valid() && k < |users|
      modifies this
      ensures Valid() && sessions == old(sessions) && nextId == old(nextId)
      ensures users == WithCredentials(old(users), k, creds)
    {
      var users' := WithCredentials(users, k, creds);
      assert Pairwise(users', DifferentUsername) && Pairwise(users', DifferentUserId) by {
        forall i, j | 0 <= i < j < |users'|
          ensures DifferentUsername(users'[i], users'[j]) && DifferentUserId(users'[i], users'[j])
        {
          assert DifferentUsername(users[i], users[j]) && DifferentUserId(users[i], users[j]);
        }
      }
      forall i | 0 <= i < |sessions| ensures UserIndex(users', sessions[i].user) < |users'| {
        SameIdsSameIndex(users, users', sessions[i].user);
      }
      users := users';
    }
  }

  /** Appending a user does not move the first user with a given id. */
  lemma KeepUserIndex(users: seq<UserDoc>, u: UserDoc, id: Id)
    requires UserIndex(users, id) < |users|
    ensures UserIndex(users + [u], id) == UserIndex(users, id)
  {
    var k, k' := UserIndex(users, id), UserIndex(users + [u], id);
    assert (users + [u])[k] == users[k];
  }

  /** Deleting one session keeps the tokens distinct, keeps only sessions
      that were there, and leaves no session with the deleted token. */
  lemma RemoveSession(sessions: seq<Session>, k: nat)
    requires k < |sessions| && Pairwise(sessions, DifferentToken)
    ensures var rest := sessions[..k] + sessions[k + 1..];
      && Pairwise(rest, DifferentToken)
      && (forall j :: 0 <= j < |rest| ==> rest[j] in sessions)
      && (forall j :: 0 <= j < |rest| ==> rest[j].token != sessions[k].token)
  {
    var rest := sessions[..k] + sessions[k + 1..];
    assert forall j :: 0 <= j < |rest| ==> rest[j] == (if j < k then sessions[j] else sessions[j + 1]);
    forall i, j | 0 <= i < j < |rest| ensures DifferentToken(rest[i], rest[j]) {
      var i0, j0 := if i < k then i else i + 1, if j < k then j else j + 1;
      assert DifferentToken(sessions[i0], sessions[j0]);
    }
    forall j | 0 <= j < |rest| ensures rest[j].token != sessions[k].token {
      var j0 := if j < k then j else j + 1;
      assert DifferentToken(sessions[k], sessions[j0]) || DifferentToken(sessions[j0], sessions[k]);
    }
  }

  lemma SameIdsSameIndex(users: seq<UserDoc>, users': seq<UserDoc>, id: Id)
    requires |users| == |users'| && forall j :: 0 <= j < |users| ==> users'[j].id == users[j].id
    ensures UserIndex(users', id) == UserIndex(users, id)
  {
  }

  /** Registering and then logging in with the same password succeeds and
      binds the new session to the new user. */
  method RegisterThenLogin(c: UserAuthenticationConcept, username: string, password: string)
    returns (user: Result<Id, AuthError>, token: Result<Id, AuthError>)
    requires c.Valid() && UserNamed(c.users, username) == |c.users|
    modifies c
    ensures user.Ok? && token.Ok? && c.GetCurrentUser(token.value) == Ok(user.value)
  {
    user := c.Register(username, password);
    ghost var u := c.users[|c.users| - 1];
    assert UserNamed(c.users, username) == |c.users| - 1;
    assert c.compare(password, u.hashedPassword);
    token := c.Login(username, password);
  }

  /** A second logout with the same token reports the invalid session. */
  method LogoutTwice(c: UserAuthenticationConcept, token: Id) returns (second: Result<bool, AuthError>)
    requires c.Valid()
    modifies c
    ensures second == Err(InvalidSession)
  {
    var _ := c.Logout(token);
    second := c.Logout(token);
  }
}
