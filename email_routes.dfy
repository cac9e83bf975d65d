/**
 * The email routes (backend/routes/emailRoutes.js): for each route the middleware chain that runs
 * before its handler, the express-validator checks of `POST /`, and what a request answers once
 * the chain and the handler are composed.
 */
module EmailRoutes {
  import opened Js
  import opened Http
  import opened EmailService
  import opened AuthMiddleware
  import opened LockMiddleware
  import opened EmailController
  import opened Validators

  datatype Verb = Get | Post | Put | Delete

  datatype Middleware = ProtectGate | AdminGate | CheckLockGate | ValidateCreateBody

  datatype Handler =
    | GetAllEmails | CreateEmail | GetEmailByUuid | UpdateEmail
    | DeleteEmail | LockEmail | UnlockEmail | ForceUnlockEmail

  datatype Route = Route(verb: Verb, path: string, chain: seq<Middleware>, handler: Handler)

  const ListRoute := Route(Get, "/", [ProtectGate], GetAllEmails)
  const CreateRoute := Route(Post, "/", [ProtectGate, ValidateCreateBody], CreateEmail)
  const ReadRoute := Route(Get, "/:uuid", [ProtectGate], GetEmailByUuid)
  const SaveRoute := Route(Put, "/:uuid", [ProtectGate, CheckLockGate], UpdateEmail)
  const DeleteRoute := Route(Delete, "/:uuid", [ProtectGate], DeleteEmail)
  const LockRoute := Route(Post, "/:uuid/lock", [ProtectGate], LockEmail)
  const UnlockRoute := Route(Post, "/:uuid/unlock", [ProtectGate], UnlockEmail)
  const ForceUnlockRoute := Route(Post, "/:uuid/force-unlock", [ProtectGate], ForceUnlockEmail)

  const Routes: seq<Route> :=
    [ListRoute, CreateRoute, ReadRoute, SaveRoute, DeleteRoute, LockRoute, UnlockRoute, ForceUnlockRoute]

  /** Every route authenticates first. */
  lemma ProtectComesFirst()
    ensures forall r :: r in Routes ==> |r.chain| > 0 && r.chain[0] == ProtectGate
  {
  }

  /** Only saving is lock-checked. */
  lemma OnlySaveChecksLock()
    ensures forall r :: r in Routes ==> (CheckLockGate in r.chain <==> r.handler == UpdateEmail)
  {
  }

  /** No route asks for the admin role, force-unlock included. */
  lemma NoRouteNeedsAdmin()
    ensures forall r :: r in Routes ==> AdminGate !in r.chain
  {
  }

  /** Only creating validates the request body. */
  lemma OnlyCreateValidatesBody()
    ensures forall r :: r in Routes && r.handler != CreateEmail ==> ValidateCreateBody !in r.chain
  {
  }

  // ---------------------------------------------------------------------------
  // The rules of POST /
  // ---------------------------------------------------------------------------

  /** `body('template_id').notEmpty()` and `body('initial_content').isObject().notEmpty()`, in that order. */
  function CreateBodyErrors(body: Json): seq<Json>
  {
    var t, c := Member(body, "template_id"), Member(body, "initial_content");
    NotEmptyErrors("body", "template_id", t, DefaultMessage)
    + IsObjectErrors("body", "initial_content", c, DefaultMessage)
    + NotEmptyErrors("body", "initial_content", c, DefaultMessage)
  }

  /**
   * The rules of `POST /` pass exactly when `template_id` is not empty and `initial_content` is an
   * object (any object, even `{}`, since its string form is '[object Object]').
   */
  lemma PostRulesPass(body: Json)
    ensures CreateBodyErrors(body) == [] <==>
      NotEmptyValue(Member(body, "template_id")) && Member(body, "initial_content").Some?
      && Member(body, "initial_content").value.JObj?
  {
  }

  // ---------------------------------------------------------------------------
  // Running a chain and its handler
  // ---------------------------------------------------------------------------

  /** A request as the handlers read it: the Authorization header, `req.params.uuid` and `req.body`. */
  datatype Request = Request(authorization: Option<string>, uuid: Uuid, body: Json)

  /**
   * Where a chain leaves a request: passed on to the handler with `req.user` and the validation
   * errors collected; answered by a middleware; or left without an answer (checkLock reads
   * `req.user.id` outside its try block, which throws when no user was set).
   */
  datatype ChainResult = Passed(user: Option<User>, errors: seq<Json>) | Stopped(response: Response) | Unanswered

  function RunChain(chain: seq<Middleware>, req: Request, rows: map<Uuid, EmailRow>, users: map<UserId, string>,
                    verify: string -> Option<User>, user: Option<User>, errors: seq<Json>): ChainResult
    decreases |chain|
  {
    if chain == [] then Passed(user, errors)
    else match chain[0]
      case ProtectGate =>
        (match Protect(req.authorization, verify)
         case Rejected(r) => Stopped(r)
         case Authenticated(u) => RunChain(chain[1..], req, rows, users, verify, Some(u), errors))
      case AdminGate =>
        (match Admin(user)
         case Halt(r) => Stopped(r)
         case Next => RunChain(chain[1..], req, rows, users, verify, user, errors))
      case CheckLockGate =>
        if user.None? then Unanswered
        else
          (match CheckLock(Rows(StatusOf(rows, req.uuid)), Rows(users), user.value.id)
           case Halt(r) => Stopped(r)
           case Next => RunChain(chain[1..], req, rows, users, verify, user, errors))
      case ValidateCreateBody => RunChain(chain[1..], req, rows, users, verify, user, errors + CreateBodyErrors(req.body))
  }

  /**
   * A request on one of the state-changing routes: the reply and the emails table after it. None for
   * the two reads, whose replies are the service's listing and join, and for a handler reached
   * without `req.user`. `newUuid` is the uuid `uuidv4()` draws; `now` the database clock.
   */
  function Dispatch(route: Route, req: Request, rows: map<Uuid, EmailRow>, users: map<UserId, string>,
                    verify: string -> Option<User>, isUrl: Json -> bool, now: int, newUuid: Uuid): Option<Outcome>
    requires newUuid !in rows
  {
    match RunChain(route.chain, req, rows, users, verify, None, [])
    case Unanswered => None
    case Stopped(r) => Some(Outcome(r, rows))
    case Passed(None, _) => None
    case Passed(Some(u), errors) =>
      match route.handler
      case CreateEmail => Some(CreateOutcome(rows, errors, req.body, u.id, newUuid, isUrl, now))
      case UpdateEmail => Some(UpdateOutcome(rows, errors, req.uuid, req.body, u.id, isUrl, now))
      case DeleteEmail => Some(DeleteOutcome(rows, req.uuid, u.id))
      case LockEmail => Some(LockOutcome(rows, req.uuid, u.id))
      case UnlockEmail => Some(UnlockOutcome(rows, req.uuid, u.id))
      case ForceUnlockEmail => Some(ForceUnlockOutcome(rows, req.uuid))
      case GetAllEmails => None
      case GetEmailByUuid => None
  }

  /** A request without a valid token is answered 401 on every route and changes nothing. */
  lemma UnauthenticatedRefused(route: Route, req: Request, rows: map<Uuid, EmailRow>, users: map<UserId, string>,
                               verify: string -> Option<User>, isUrl: Json -> bool, now: int, newUuid: Uuid)
    requires route in Routes && newUuid !in rows
    requires !Protect(req.authorization, verify).Authenticated?
    ensures Dispatch(route, req, rows, users, verify, isUrl, now, newUuid) == Some(Outcome(Protect(req.authorization, verify).response, rows))
    ensures Protect(req.authorization, verify).response.status == 401
  {
    ProtectComesFirst();
  }

  // ---------------------------------------------------------------------------
  // Saving: protect, then checkLock, then updateEmail
  // ---------------------------------------------------------------------------

  /** The caller may save: the email exists and is unlocked or locked by the caller. */
  predicate MaySave(rows: map<Uuid, EmailRow>, uuid: Uuid, userId: UserId)
  {
    uuid in rows && (rows[uuid].lockedBy == None || rows[uuid].lockedBy == Some(userId))
  }

  lemma SaveChain(req: Request, rows: map<Uuid, EmailRow>, users: map<UserId, string>, verify: string -> Option<User>)
    requires AllLockConsistent(rows)
    ensures var a := Protect(req.authorization, verify);
      RunChain(SaveRoute.chain, req, rows, users, verify, None, [])
        == if !a.Authenticated? then Stopped(a.response)
           else if MaySave(rows, req.uuid, a.user.id) then Passed(Some(a.user), [])
           else Stopped(CheckLock(Rows(StatusOf(rows, req.uuid)), Rows(users), a.user.id).response)
  {
    var a := Protect(req.authorization, verify);
    assert SaveRoute.chain[1..] == [CheckLockGate] && SaveRoute.chain[1..][1..] == [];
    if a.Authenticated? {
      CheckLockOverTable(rows, users, req.uuid, a.user.id);
    }
  }

  /**
   * `PUT /:uuid` stores new content only for an authenticated caller who may save: anyone when the
   * email is unlocked, otherwise only the holder. Rows are otherwise left as they were.
   */
  lemma SaveOnlyWhenAllowed(req: Request, rows: map<Uuid, EmailRow>, users: map<UserId, string>,
                            verify: string -> Option<User>, isUrl: Json -> bool, now: int, newUuid: Uuid)
    requires AllLockConsistent(rows) && newUuid !in rows
    ensures var o := Dispatch(SaveRoute, req, rows, users, verify, isUrl, now, newUuid);
      o.Some? && (o.value.rows != rows || o.value.response.status == 200) ==>
        Protect(req.authorization, verify).Authenticated?
        && MaySave(rows, req.uuid, Protect(req.authorization, verify).user.id)
  {
    SaveChain(req, rows, users, verify);
    var a := Protect(req.authorization, verify);
    if a.Authenticated? && !MaySave(rows, req.uuid, a.user.id) {
      CheckLockOverTable(rows, users, req.uuid, a.user.id);
      var s := StatusOf(rows, req.uuid);
      if s.Some? {
        assert CheckLock(Rows(s), Rows(users), a.user.id).response.status == 409;
      }
    }
  }

  /** Conversely, an allowed caller with valid content has it saved, whoever created the email. */
  lemma AllowedSaveSucceeds(req: Request, rows: map<Uuid, EmailRow>, users: map<UserId, string>,
                            verify: string -> Option<User>, isUrl: Json -> bool, now: int, newUuid: Uuid)
    requires AllLockConsistent(rows) && newUuid !in rows
    requires Protect(req.authorization, verify).Authenticated?
    requires MaySave(rows, req.uuid, Protect(req.authorization, verify).user.id)
    requires UpdateEmailRefusal([], req.body, isUrl).None?
    ensures Dispatch(SaveRoute, req, rows, users, verify, isUrl, now, newUuid)
      == Some(Outcome(Reply(200, "Contenido del correo actualizado exitosamente."),
                      ContentUpdated(rows, req.uuid, Member(req.body, "updated_content").value,
                                     Protect(req.authorization, verify).user.id, now)))
  {
    SaveChain(req, rows, users, verify);
  }

  /** Someone else's lock turns the save away with 409 naming the holder, before any validation. */
  lemma SaveAgainstLockRefused(req: Request, rows: map<Uuid, EmailRow>, users: map<UserId, string>,
                               verify: string -> Option<User>, isUrl: Json -> bool, now: int, newUuid: Uuid)
    requires AllLockConsistent(rows) && newUuid !in rows
    requires Protect(req.authorization, verify).Authenticated?
    requires req.uuid in rows && rows[req.uuid].isLocked
    requires rows[req.uuid].lockedBy != Some(Protect(req.authorization, verify).user.id)
    ensures var holder := rows[req.uuid].lockedBy.value;
      Dispatch(SaveRoute, req, rows, users, verify, isUrl, now, newUuid)
        == Some(Outcome(Reply(409, EditedBy(if holder in users then users[holder] else HolderFallback)), rows))
  {
    SaveChain(req, rows, users, verify);
    CheckLockOverTable(rows, users, req.uuid, Protect(req.authorization, verify).user.id);
  }

  // ---------------------------------------------------------------------------
  // The other routes: protect only
  // ---------------------------------------------------------------------------

  lemma ProtectOnlyChain(route: Route, req: Request, rows: map<Uuid, EmailRow>, users: map<UserId, string>,
                         verify: string -> Option<User>)
    requires route.chain == [ProtectGate]
    requires Protect(req.authorization, verify).Authenticated?
    ensures RunChain(route.chain, req, rows, users, verify, None, []) == Passed(Some(Protect(req.authorization, verify).user), [])
  {
    assert route.chain[1..] == [];
  }

  /**
   * `DELETE /:uuid` has no checkLock: the handler's own test decides, so an unlocked email can be
   * deleted by any authenticated user, and a locked one by its holder.
   */
  lemma DeleteDecidedByHandler(req: Request, rows: map<Uuid, EmailRow>, users: map<UserId, string>,
                               verify: string -> Option<User>, isUrl: Json -> bool, now: int, newUuid: Uuid)
    requires AllLockConsistent(rows) && newUuid !in rows
    requires Protect(req.authorization, verify).Authenticated?
    ensures var u := Protect(req.authorization, verify).user;
      Dispatch(DeleteRoute, req, rows, users, verify, isUrl, now, newUuid) == Some(DeleteOutcome(rows, req.uuid, u.id))
    ensures var u := Protect(req.authorization, verify).user;
      MaySave(rows, req.uuid, u.id) ==>
        Dispatch(DeleteRoute, req, rows, users, verify, isUrl, now, newUuid)
          == Some(Outcome(Reply(200, "Correo eliminado exitosamente."), rows - {req.uuid}))
  {
    ProtectOnlyChain(DeleteRoute, req, rows, users, verify);
  }

  /**
   * `POST /:uuid/force-unlock` is behind protect only: any authenticated user, whatever the role,
   * releases any existing lock.
   */
  lemma ForceUnlockNeedsNoAdmin(req: Request, rows: map<Uuid, EmailRow>, users: map<UserId, string>,
                                verify: string -> Option<User>, isUrl: Json -> bool, now: int, newUuid: Uuid)
    requires newUuid !in rows
    requires Protect(req.authorization, verify).Authenticated?
    requires !IsAdmin(Protect(req.authorization, verify).user)
    requires req.uuid in rows
    ensures Dispatch(ForceUnlockRoute, req, rows, users, verify, isUrl, now, newUuid)
      == Some(Outcome(Reply(200, "Correo desbloqueado por el administrador."), Unlocked(rows, req.uuid)))
    ensures Admin(Some(Protect(req.authorization, verify).user)).Halt?
  {
    ProtectOnlyChain(ForceUnlockRoute, req, rows, users, verify);
  }

  lemma CreateChain(req: Request, rows: map<Uuid, EmailRow>, users: map<UserId, string>, verify: string -> Option<User>)
    requires Protect(req.authorization, verify).Authenticated?
    ensures RunChain(CreateRoute.chain, req, rows, users, verify, None, [])
      == Passed(Some(Protect(req.authorization, verify).user), CreateBodyErrors(req.body))
  {
    var u := Protect(req.authorization, verify).user;
    var errors := CreateBodyErrors(req.body);
    assert CreateRoute.chain[1..] == [ValidateCreateBody] && CreateRoute.chain[1..][1..] == [];
    assert RunChain(CreateRoute.chain, req, rows, users, verify, None, [])
      == RunChain([ValidateCreateBody], req, rows, users, verify, Some(u), []);
    assert RunChain([ValidateCreateBody], req, rows, users, verify, Some(u), [])
      == RunChain([], req, rows, users, verify, Some(u), [] + errors);
    assert [] + errors == errors;
  }

  /** The refusal createEmail gives after validation passed with both fields present, as given by its field walk. */
  predicate FieldWalkRefusal(errors: seq<Json>, body: Json, isUrl: Json -> bool, r: Response)
  {
    var walk := FirstFieldError(BodyEntries(Member(body, "initial_content")), isUrl, false);
    (errors != [] && r == ValidationFailed(errors)) || (walk.Some? && r == Reply(400, walk.value))
  }

  /** With both fields present, every refusal is a validation error or a field error: never the undefined bind. */
  lemma RefusalWithFieldsPresent(errors: seq<Json>, body: Json, isUrl: Json -> bool)
    requires errors == [] ==> Member(body, "template_id").Some? && Member(body, "initial_content").Some?
    ensures var r := CreateEmailRefusal(errors, body, isUrl);
      && (r.Some? ==> FieldWalkRefusal(errors, body, isUrl, r.value))
      && (r.None? <==> errors == [] && FirstFieldError(BodyEntries(Member(body, "initial_content")), isUrl, false).None?)
  {
  }

  /** Under the rules of `POST /`, the fields createEmail binds are always present. */
  lemma CreateRefusalAfterRules(body: Json, isUrl: Json -> bool)
    ensures var errors := CreateBodyErrors(body);
      var r := CreateEmailRefusal(errors, body, isUrl);
      && (r.Some? ==> FieldWalkRefusal(errors, body, isUrl, r.value))
      && (r.None? <==> errors == [] && FirstFieldError(BodyEntries(Member(body, "initial_content")), isUrl, false).None?)
  {
    PostRulesPass(body);
    RefusalWithFieldsPresent(CreateBodyErrors(body), body, isUrl);
  }

  /**
   * `POST /`: the handler never reaches the undefined-bind error, since the rules demand both
   * fields; the email is created exactly when the rules pass and no entry of `initial_content`
   * fails its field check, and is otherwise refused by one of those two.
   */
  lemma CreateAfterRules(req: Request, rows: map<Uuid, EmailRow>, users: map<UserId, string>,
                         verify: string -> Option<User>, isUrl: Json -> bool, now: int, newUuid: Uuid)
    requires newUuid !in rows
    requires Protect(req.authorization, verify).Authenticated?
    ensures var o := Dispatch(CreateRoute, req, rows, users, verify, isUrl, now, newUuid);
      o.Some? && (o.value.response.status != 201 ==>
                  FieldWalkRefusal(CreateBodyErrors(req.body), req.body, isUrl, o.value.response))
    ensures var o := Dispatch(CreateRoute, req, rows, users, verify, isUrl, now, newUuid);
      o.value.response.status == 201 <==>
        && CreateBodyErrors(req.body) == []
        && FirstFieldError(BodyEntries(Member(req.body, "initial_content")), isUrl, false).None?
  {
    CreateChain(req, rows, users, verify);
    CreateRefusalAfterRules(req.body, isUrl);
  }
}
