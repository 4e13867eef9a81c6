/**
 The generations collection route: `GET` lists the caller's records newest
 first, `POST` creates a record from a JSON body for the caller.
 */
module GenerationsRoute {
  import opened Outcomes
  import opened GenerationModel
  import opened Http
  import opened Effects

  const FetchFailed := "Failed to fetch generations."
  const MissingFields := "Missing required generation fields."
  const CreateFailed := "Failed to create generation."
  const CreatedMessage := "Generation created successfully"

  /** `find({ userId })`: the records of one owner, in collection order. */
  function Owned(store: seq<Generation>, userId: string): (r: seq<Generation>)
    ensures forall g :: g in r <==> g in store && g.userId == userId
    ensures forall g :: multiset(r)[g] == if g.userId == userId then multiset(store)[g] else 0
    decreases |store|
  {
    if store == [] then []
    else
      var rest := Owned(store[..|store| - 1], userId);
      var g := store[|store| - 1];
      assert store == store[..|store| - 1] + [g];
      if g.userId == userId then rest + [g] else rest
  }

  /** Ordered by `uploadDate`, newest first. */
  predicate NewestFirst(s: seq<Generation>) {
    forall i, j :: 0 <= i < j < |s| ==> s[i].uploadDate >= s[j].uploadDate
  }

  /** Inserting one record into a list ordered newest first. */
  function Insert(g: Generation, s: seq<Generation>): (r: seq<Generation>)
    requires NewestFirst(s)
    ensures NewestFirst(r)
    ensures multiset(r) == multiset(s) + multiset{g}
    ensures |r| == |s| + 1
    ensures r[0] == g || (s != [] && r[0] == s[0])
  {
    if s == [] || g.uploadDate >= s[0].uploadDate then
      ConsNewestFirst(g, s);
      [g] + s
    else
      var rest := Insert(g, s[1..]);
      assert s == [s[0]] + s[1..];
      ConsNewestFirst(s[0], rest);
      [s[0]] + rest
  }

  /** A record no older than the head of an ordered list can go in front. */
  lemma ConsNewestFirst(h: Generation, s: seq<Generation>)
    requires NewestFirst(s)
    requires s == [] || h.uploadDate >= s[0].uploadDate
    ensures NewestFirst([h] + s)
  {
    var r := [h] + s;
    forall i, j | 0 <= i < j < |r|
      ensures r[i].uploadDate >= r[j].uploadDate
    {
      if i == 0 && j > 1 {
        assert r[j] == s[j - 1];
      }
    }
  }

  /** `sort({ uploadDate: -1 })`: the same records, newest first. Records
      with equal dates keep no particular order in the database; here they
      come out in one fixed order. */
  function SortNewestFirst(s: seq<Generation>): (r: seq<Generation>)
    ensures NewestFirst(r)
    ensures multiset(r) == multiset(s)
  {
    if s == [] then []
    else
      assert s == [s[0]] + s[1..];
      Insert(s[0], SortNewestFirst(s[1..]))
  }

  /** `GET /api/generations`. `connect` and `find` are the outcomes of the
      two database calls. */
  function Get(session: Option<string>, store: seq<Generation>, connect: Step, find: Step): (o: Outcome)
    ensures o.store == store
    ensures o.response.status in {200, 401, 500}
    ensures SessionUserId(session).None? ==> o == Outcome(Unauthorized, [], store)
    ensures o.response.status == 500 ==> o.response == Response(500, Message(FetchFailed))
    ensures o.response.status == 200 <==> SessionUserId(session).Some? && connect.Pass? && find.Pass?
    ensures o.response.status == 200 ==>
      && o.calls == [DbConnect, DbFind]
      && o.response.body.GenerationList?
      && var list := o.response.body.generations;
      && NewestFirst(list)
      && (forall g :: g in list <==> g in store && g.userId == session.value)
      && multiset(list) == multiset(Owned(store, session.value))
  {
    match SessionUserId(session)
    case None => Outcome(Unauthorized, [], store)
    case Some(userId) =>
      match connect
      case Throw(_) => Outcome(Response(500, Message(FetchFailed)), [DbConnect], store)
      case Pass =>
        match find
        case Throw(_) => Outcome(Response(500, Message(FetchFailed)), [DbConnect, DbFind], store)
        case Pass =>
          var list := SortNewestFirst(Owned(store, userId));
          assert forall g :: g in list <==> g in multiset(list);
          Outcome(Response(200, GenerationList(list)), [DbConnect, DbFind], store)
  }

  /** Records of other users never show in a listing: adding one leaves the
      listing as it was. */
  lemma OtherOwnersInvisible(session: Option<string>, store: seq<Generation>, g: Generation,
                             connect: Step, find: Step)
    requires SessionUserId(session).Some? && g.userId != session.value
    ensures Get(session, store + [g], connect, find).response == Get(session, store, connect, find).response
  {
    assert (store + [g])[..|store|] == store;
    assert Owned(store + [g], session.value) == Owned(store, session.value);
  }

  /** The fields of the JSON body the route reads; `userId` and
      `uploadDate` stand for fields a client may send that the route
      ignores. `None` for the whole body: it did not parse. */
  datatype CreateBody = CreateBody(
    originalContent: Option<string>,
    generatedContent: Option<string>,
    fileName: Option<string>,
    generationType: Option<string>,
    userGivenName: Option<string>,
    originalFileUrl: Option<string>,
    userId: Option<string>,
    uploadDate: Option<int>)

  /** The four fields the route itself insists on (`!x` rejects a missing
      field and the empty string). */
  predicate HasRequiredFields(b: CreateBody) {
    Present(b.originalContent) && Present(b.generatedContent)
    && Present(b.fileName) && Present(b.generationType)
  }

  /** The draft `new Generation({...})` is given: the owner is the session's
      user and the date is the server clock, whatever the body says. */
  function CreateDraft(b: CreateBody, userId: string, now: int): Draft {
    Draft(b.originalContent, b.generatedContent, b.fileName, b.generationType,
          b.userGivenName, Some(now), b.originalFileUrl, Some(userId))
  }

  /** `POST /api/generations`. `connect` and `save` are the database's
      answers, `newId` the new record's id, `now` the clock. */
  function Create(session: Option<string>, body: Option<CreateBody>, connect: Step,
                  save: Generation -> Step, newId: string, now: int,
                  store: seq<Generation>): (o: Outcome)
    ensures o.response.status in {201, 400, 401, 500}
    ensures o.response.status != 201 ==> o.store == store
    ensures SessionUserId(session).None? ==> o == Outcome(Unauthorized, [], store)
    ensures SessionUserId(session).Some? && body.Some? && !HasRequiredFields(body.value) ==>
      o == Outcome(Response(400, Message(MissingFields)), [], store)
    ensures o.response.status == 500 ==> o.response == Response(500, Message(CreateFailed))
    ensures SessionUserId(session).Some? && body.None? ==>
      o == Outcome(Response(500, Message(CreateFailed)), [], store)
    ensures SessionUserId(session).Some? && body.Some? && HasRequiredFields(body.value) && connect.Throw? ==>
      o == Outcome(Response(500, Message(CreateFailed)), [DbConnect], store)
    ensures o.response.status == 201 ==>
      && SessionUserId(session).Some? && body.Some? && HasRequiredFields(body.value) && connect.Pass?
      && |o.calls| == 2 && o.calls[0] == DbConnect && o.calls[1].DbSave?
      && var rec := o.calls[1].record;
      && o.store == store + [rec]
      && o.response == Response(201, Created(CreatedMessage, rec))
      && Valid(rec) && rec.id == newId
      && rec.userId == session.value && rec.uploadDate == now
      && rec.originalContent == body.value.originalContent.value
      && rec.generatedContent == body.value.generatedContent.value
      && rec.fileName == body.value.fileName.value
      && rec.generationType.Value() == body.value.generationType.value
      && rec.userGivenName == body.value.userGivenName
      && Some(rec.originalFileUrl) == body.value.originalFileUrl
      && save(rec) == Pass
    ensures && SessionUserId(session).Some? && body.Some? && HasRequiredFields(body.value) && connect.Pass?
            && Validate(newId, CreateDraft(body.value, session.value, now), now).Ok?
            ==> (o.response.status == 201
                 <==> save(Validate(newId, CreateDraft(body.value, session.value, now), now).value).Pass?)
  {
    match SessionUserId(session)
    case None => Outcome(Unauthorized, [], store)
    case Some(userId) =>
      match body
      case None => Outcome(Response(500, Message(CreateFailed)), [], store)
      case Some(b) =>
        if !HasRequiredFields(b) then Outcome(Response(400, Message(MissingFields)), [], store)
        else match connect
          case Throw(_) => Outcome(Response(500, Message(CreateFailed)), [DbConnect], store)
          case Pass =>
            match Validate(newId, CreateDraft(b, userId, now), now)
            case Thrown(_) => Outcome(Response(500, Message(CreateFailed)), [DbConnect], store)
            case Ok(rec) =>
              match save(rec)
              case Throw(_) => Outcome(Response(500, Message(CreateFailed)), [DbConnect, DbSave(rec)], store)
              case Pass =>
                Outcome(Response(201, Created(CreatedMessage, rec)), [DbConnect, DbSave(rec)], store + [rec])
  }

  /** The owner and the date a client sends are ignored: changing them
      changes nothing. */
  lemma CreateIgnoresClientOwner(session: Option<string>, b: CreateBody, userId: Option<string>,
                                 uploadDate: Option<int>, connect: Step, save: Generation -> Step,
                                 newId: string, now: int, store: seq<Generation>)
    ensures Create(session, Some(b.(userId := userId, uploadDate := uploadDate)), connect, save, newId, now, store)
         == Create(session, Some(b), connect, save, newId, now, store)
  {
  }

  /** The route does not check `originalFileUrl` or the type's value, but
      the schema does: a body without a URL, or with an unknown type, passes
      the route's check and then fails with 500, saving nothing. */
  lemma CreateSchemaRejects(session: Option<string>, b: CreateBody, save: Generation -> Step,
                            newId: string, now: int, store: seq<Generation>)
    requires SessionUserId(session).Some? && HasRequiredFields(b)
    requires !Present(b.originalFileUrl) || ParseGenerationType(b.generationType.value).None?
    ensures Create(session, Some(b), Pass, save, newId, now, store)
         == Outcome(Response(500, Message(CreateFailed)), [DbConnect], store)
  {
  }

  /** A record just created shows in its owner's next listing. */
  lemma CreatedIsListed(session: Option<string>, b: CreateBody, save: Generation -> Step,
                        newId: string, now: int, store: seq<Generation>)
    requires Create(session, Some(b), Pass, save, newId, now, store).response.status == 201
    ensures var o := Create(session, Some(b), Pass, save, newId, now, store);
      var r := Get(session, o.store, Pass, Pass).response;
      r.status == 200 && o.response.body.generation in r.body.generations
  {
  }

  /** A create never makes the collection invalid. */
  lemma CreateKeepsStoreValid(session: Option<string>, body: Option<CreateBody>, connect: Step,
                              save: Generation -> Step, newId: string, now: int, store: seq<Generation>)
    requires AllValid(store)
    ensures AllValid(Create(session, body, connect, save, newId, now, store).store)
  {
  }
}
