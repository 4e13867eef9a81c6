/**
 The signup route (`POST /api/auth/signup`): a registry of users keyed by
 username, to which a request adds at most one user.
 */
module SignupRoute {
  import opened Outcomes
  import opened GenerationModel
  import opened Http

  const CredentialsRequired := "Username and password are required."
  const UsernameTaken := "Username already taken."
  const RegisteredMessage := "User registered successfully!"
  const RegisterFailed := "Failed to register user."

  /** A stored user: the password is kept only as its hash. */
  datatype User = User(id: string, username: string, passwordHash: string)

  /** The two fields read from the JSON body. */
  datatype SignupBody = SignupBody(username: Option<string>, password: Option<string>)

  /** The database calls the route makes. */
  datatype UserCall = Connect | FindOne(username: string) | SaveUser(username: string)

  /** The answers of the database to the three calls. */
  datatype UserStore = UserStore(connect: Step, find: Step, save: Step)

  datatype Outcome = Outcome(response: Response, calls: seq<UserCall>, users: seq<User>)

  /** `User.findOne({ username })` finds a user. */
  predicate NameTaken(users: seq<User>, name: string) {
    exists i :: 0 <= i < |users| && users[i].username == name
  }

  /** No two users share a username. */
  predicate UniqueNames(users: seq<User>) {
    forall i, j :: 0 <= i < j < |users| ==> users[i].username != users[j].username
  }

  /** `POST /api/auth/signup`. `body` is `None` when the JSON does not
      parse; `hash` stands for the pre-save hook's hashing; `newId` is the
      new user's id. */
  function Signup(body: Option<SignupBody>, db: UserStore, hash: string -> string, newId: string,
                  users: seq<User>): (o: Outcome)
    ensures o.response.status in {201, 400, 409, 500}
    ensures o.response.status != 201 ==> o.users == users
    ensures o.response.status == 500 ==> o.response == Response(500, Message(RegisterFailed))
    ensures o.response.status == 400 <==>
      db.connect.Pass? && body.Some? && !(Present(body.value.username) && Present(body.value.password))
    ensures o.response.status == 400 ==>
      o == Outcome(Response(400, Message(CredentialsRequired)), [Connect], users)
    ensures o.response.status == 409 <==>
      && db.connect.Pass? && body.Some? && Present(body.value.username) && Present(body.value.password)
      && db.find.Pass? && NameTaken(users, body.value.username.value)
    ensures o.response.status == 409 ==> o.response == Response(409, Message(UsernameTaken))
    ensures o.response.status == 201 ==>
      && db.connect.Pass? && db.find.Pass? && db.save.Pass?
      && body.Some? && Present(body.value.username) && Present(body.value.password)
      && var name := body.value.username.value;
      && !NameTaken(users, name)
      && o.users == users + [User(newId, name, hash(body.value.password.value))]
      && o.response == Response(201, Registered(RegisteredMessage, PublicUser(newId, name)))
      && o.calls == [Connect, FindOne(name), SaveUser(name)]
    ensures && db.connect.Pass? && body.Some? && Present(body.value.username) && Present(body.value.password)
            && db.find.Pass? && !NameTaken(users, body.value.username.value) && db.save.Pass?
            ==> o.response.status == 201
    ensures UniqueNames(users) ==> UniqueNames(o.users)
  {
    match db.connect
    case Throw(_) => Outcome(Response(500, Message(RegisterFailed)), [Connect], users)
    case Pass =>
      match body
      case None => Outcome(Response(500, Message(RegisterFailed)), [Connect], users)
      case Some(b) =>
        if !Present(b.username) || !Present(b.password) then
          Outcome(Response(400, Message(CredentialsRequired)), [Connect], users)
        else
          var name := b.username.value;
          match db.find
          case Throw(_) => Outcome(Response(500, Message(RegisterFailed)), [Connect, FindOne(name)], users)
          case Pass =>
            if NameTaken(users, name) then
              Outcome(Response(409, Message(UsernameTaken)), [Connect, FindOne(name)], users)
            else
              match db.save
              case Throw(_) =>
                Outcome(Response(500, Message(RegisterFailed)), [Connect, FindOne(name), SaveUser(name)], users)
              case Pass =>
                var user := User(newId, name, hash(b.password.value));
                Outcome(Response(201, Registered(RegisteredMessage, PublicUser(newId, name))),
                        [Connect, FindOne(name), SaveUser(name)], users + [user])
  }

  /** Signing up a second time with a name just registered is a conflict. */
  lemma SecondSignupConflicts(b: SignupBody, c: SignupBody, db: UserStore, hash: string -> string,
                              id1: string, id2: string, users: seq<User>)
    requires Signup(Some(b), db, hash, id1, users).response.status == 201
    requires c.username == b.username && Present(c.password)
    ensures Signup(Some(c), db, hash, id2, Signup(Some(b), db, hash, id1, users).users).response
         == Response(409, Message(UsernameTaken))
  {
    var after := Signup(Some(b), db, hash, id1, users).users;
    assert after[|users|].username == b.username.value;
  }

  /** One signup request together with the database's answers and the id
      the new user would get. */
  datatype Attempt = Attempt(body: Option<SignupBody>, db: UserStore, newId: string)

  /** Requests handled one after another. */
  function SignupAll(attempts: seq<Attempt>, hash: string -> string, users: seq<User>): seq<User>
    decreases |attempts|
  {
    if attempts == [] then users
    else
      var a := attempts[0];
      SignupAll(attempts[1..], hash, Signup(a.body, a.db, hash, a.newId, users).users)
  }

  /** Handled one at a time, any sequence of signups keeps usernames unique,
      and only ever adds users. */
  lemma {:induction false} SignupAllUnique(attempts: seq<Attempt>, hash: string -> string,
                                           users: seq<User>)
    requires UniqueNames(users)
    ensures UniqueNames(SignupAll(attempts, hash, users))
    ensures |SignupAll(attempts, hash, users)| >= |users|
    ensures SignupAll(attempts, hash, users)[..|users|] == users
    decreases |attempts|
  {
    if attempts != [] {
      var a := attempts[0];
      var next := Signup(a.body, a.db, hash, a.newId, users).users;
      SignupAllUnique(attempts[1..], hash, next);
      var all := SignupAll(attempts[1..], hash, next);
      assert next[..|users|] == users;
      assert all[..|users|] == next[..|next|][..|users|];
    }
  }
}
