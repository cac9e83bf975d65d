/**
 * The older, self-contained server (backend/server.js), which duplicates the email and template
 * routes with its own rules: a rich-text validator without exemptions, a save that demands the
 * lock, 409 messages naming the holder, and the template name and placeholder checks.
 * Its `protect`, `admin` and `checkLock` (backend/server.js:58-106) are the same code as the
 * middleware modules and are modelled there; this `checkLock` is not attached to any route.
 */
module LegacyServer {
  import opened Js
  import opened Http
  import opened Placeholders
  import opened TemplateService
  import opened EmailService
  import opened AuthMiddleware
  import opened LockMiddleware
  import opened Validators
  import EmailController

  const ServerError := "Error interno del servidor."

  // ---------------------------------------------------------------------------
  // The content walk of create and save
  // ---------------------------------------------------------------------------

  /**
   * The legacy `validateRichContent` throws: for every non-string (which has no `replace`) and for
   * every string whose text is blank once its tags are stripped, '<p></p>' and '' included.
   */
  predicate RichContentThrows(value: Json)
  {
    !value.JStr? || EmailController.Blank(StripTags(value.s))
  }

  /**
   * The two rich-text validators compared: whatever the controller's rejects the legacy one
   * rejects, and they differ exactly on non-strings, '' and '<p></p>'.
   */
  lemma RichValidatorsCompared(value: Json)
    ensures EmailController.ValidateRichContent(value).Some? ==> RichContentThrows(value)
    ensures RichContentThrows(value) && EmailController.ValidateRichContent(value).None? <==>
      !value.JStr? || value.s == "" || value.s == "<p></p>"
  {
    if value.JStr? {
      var s := value.s;
      if s != "" && s != "<p></p>" {
        EmailController.RichContentRejectsBlank(s);
      } else if s == "<p></p>" {
        assert StripTags("</p>") == [] by {
          assert IndexOfChar("</p>", '>', 1) == Some(3);
          assert "</p>"[4..] == [];
        }
        assert IndexOfChar(s, '>', 1) == Some(2);
        assert s[3..] == "</p>";
      }
    }
  }

  /** Why the walk stopped: a link key whose value is not a URL (400), or a throwing rich-text check (500). */
  datatype FieldFailure = BadLink(key: string) | Thrown

  function FailureReply(f: FieldFailure): (r: Response)
    ensures f.BadLink? ==> r == Reply(400, "El campo '" + f.key + "' debe ser una URL válida.")
    ensures f.Thrown? ==> r == Reply(500, ServerError)
  {
    match f
    case BadLink(key) => Reply(400, "El campo '" + key + "' debe ser una URL válida.")
    case Thrown => Reply(500, ServerError)
  }

  /** One entry: keys containing `enlace_` must be URLs, every other value must pass the legacy validator. */
  function EntryFailure(f: Field, isUrl: Json -> bool): (r: Option<FieldFailure>)
    ensures Includes(f.key, "enlace_") ==> (r.None? <==> isUrl(f.value)) && (r.Some? ==> r.value == BadLink(f.key))
    ensures !Includes(f.key, "enlace_") ==> (r.None? <==> !RichContentThrows(f.value)) && (r.Some? ==> r.value == Thrown)
  {
    if Includes(f.key, "enlace_") then (if isUrl(f.value) then None else Some(BadLink(f.key)))
    else if RichContentThrows(f.value) then Some(Thrown)
    else None
  }

  function FirstFailure(entries: seq<Field>, isUrl: Json -> bool): Option<FieldFailure>
  {
    if entries == [] then None
    else match EntryFailure(entries[0], isUrl)
      case Some(f) => Some(f)
      case None => FirstFailure(entries[1..], isUrl)
  }

  /** The walk passes exactly when every entry passes. */
  lemma {:induction false} FirstFailureNoneIff(entries: seq<Field>, isUrl: Json -> bool)
    ensures FirstFailure(entries, isUrl).None? <==> forall i :: 0 <= i < |entries| ==> EntryFailure(entries[i], isUrl).None?
  {
    if entries != [] {
      FirstFailureNoneIff(entries[1..], isUrl);
      assert forall i :: 1 <= i < |entries| ==> entries[i] == entries[1..][i - 1];
    }
  }

  /** Content the legacy walk accepts is accepted by the controller's walk of createEmail too. */
  lemma LegacyWalkStricter(entries: seq<Field>, isUrl: Json -> bool)
    requires FirstFailure(entries, isUrl).None?
    ensures EmailController.FirstFieldError(entries, isUrl, false).None?
  {
    FirstFailureNoneIff(entries, isUrl);
    EmailController.FirstFieldErrorNoneIff(entries, isUrl, false);
    forall i | 0 <= i < |entries| ensures EmailController.FieldError(entries[i], isUrl, false).None? {
      assert EntryFailure(entries[i], isUrl).None?;
      RichValidatorsCompared(entries[i].value);
    }
  }

  /** The `for (const key in content)` loop of create and save, stopping at the first failure. */
  method CheckEntries(entries: seq<Field>, isUrl: Json -> bool) returns (failure: Option<FieldFailure>)
    ensures failure == FirstFailure(entries, isUrl)
  {
    var i := 0;
    while i < |entries|
      invariant i <= |entries|
      invariant FirstFailure(entries, isUrl) == FirstFailure(entries[i..], isUrl)
      decreases |entries| - i
    {
      assert entries[i..][0] == entries[i] && entries[i..][1..] == entries[i + 1..];
      var f := EntryFailure(entries[i], isUrl);
      if f.Some? {
        return f;
      }
      i := i + 1;
    }
    return None;
  }

  // ---------------------------------------------------------------------------
  // POST /api/emails-editable
  // ---------------------------------------------------------------------------

  /** `body('template_id').notEmpty()` and `body('initial_content').isObject().notEmpty()`, with their messages. */
  function CreateBodyErrors(body: Json): (errs: seq<Json>)
    ensures errs == [] <==> NotEmptyValue(Member(body, "template_id")) && Member(body, "initial_content").Some?
                            && Member(body, "initial_content").value.JObj?
  {
    var t, c := Member(body, "template_id"), Member(body, "initial_content");
    NotEmptyErrors("body", "template_id", t, "El ID del template es requerido.")
    + IsObjectErrors("body", "initial_content", c, DefaultMessage)
    + NotEmptyErrors("body", "initial_content", c, "El contenido inicial es requerido.")
  }

  /**
   * Create: 400 with the validation errors; the walk's failure; otherwise a row locked by the
   * creator and holding `initial_content` is inserted under the fresh uuid, answered with 201.
   */
  function CreateOutcome(rows: map<Uuid, EmailRow>, body: Json, userId: UserId, uuid: Uuid, isUrl: Json -> bool, now: int)
    : (o: EmailController.Outcome)
    requires uuid !in rows
    ensures CreateBodyErrors(body) != [] ==> o == EmailController.Outcome(ValidationFailed(CreateBodyErrors(body)), rows)
    ensures CreateBodyErrors(body) == [] && FirstFailure(ForInEntries(Member(body, "initial_content").value), isUrl).Some? ==>
      o == EmailController.Outcome(FailureReply(FirstFailure(ForInEntries(Member(body, "initial_content").value), isUrl).value), rows)
    ensures o.response.status == 201 <==>
      CreateBodyErrors(body) == [] && FirstFailure(ForInEntries(Member(body, "initial_content").value), isUrl).None?
    ensures o.response.status == 201 ==>
      && o.response == Response(201, EmailController.CreatedBody(uuid))
      && o.rows == rows[uuid := NewRow(Member(body, "template_id").value, Member(body, "initial_content").value, userId, now)]
      && o.rows[uuid].lockedBy == Some(userId)
  {
    var errors := CreateBodyErrors(body);
    if errors != [] then EmailController.Outcome(ValidationFailed(errors), rows)
    else
      var t, c := Member(body, "template_id").value, Member(body, "initial_content").value;
      match FirstFailure(ForInEntries(c), isUrl)
      case Some(f) => EmailController.Outcome(FailureReply(f), rows)
      case None =>
        EmailController.Outcome(Response(201, EmailController.CreatedBody(uuid)), rows[uuid := NewRow(t, c, userId, now)])
  }

  method CreateEmail(table: EmailTable, body: Json, userId: UserId, uuid: Uuid, isUrl: Json -> bool, now: int)
    returns (resp: Response)
    requires table.Valid() && uuid !in table.rows
    modifies table
    ensures table.Valid()
    ensures EmailController.Outcome(resp, table.rows) == CreateOutcome(old(table.rows), body, userId, uuid, isUrl, now)
  {
    var errors := CreateBodyErrors(body);
    if errors != [] {
      return ValidationFailed(errors);
    }
    var t, c := Member(body, "template_id").value, Member(body, "initial_content").value;
    var failure := CheckEntries(ForInEntries(c), isUrl);
    if failure.Some? {
      return FailureReply(failure.value);
    }
    var created := table.CreateEmail(uuid, t, c, userId, now);
    resp := Response(201, EmailController.CreatedBody(created));
  }

  // ---------------------------------------------------------------------------
  // PUT /api/emails-editable/:uuid
  // ---------------------------------------------------------------------------

  /** `param('uuid').isUUID(4)` and `body('updated_content').isObject().notEmpty()`, with their messages. */
  function SaveErrors(uuid: Uuid, body: Json): (errs: seq<Json>)
    ensures errs == [] <==> IsUuidV4(uuid) && Member(body, "updated_content").Some? && Member(body, "updated_content").value.JObj?
  {
    var u := Member(body, "updated_content");
    (if IsUuidV4(uuid) then [] else [ValidatorError("params", "uuid", Some(JStr(uuid)), "UUID de correo inválido.")])
    + IsObjectErrors("body", "updated_content", u, DefaultMessage)
    + NotEmptyErrors("body", "updated_content", u, "El contenido es requerido.")
  }

  const NotHolder := "No tienes el bloqueo para guardar este correo."

  /**
   * Save: 400 with the validation errors; the walk over the top-level keys of `updated_content`;
   * 403 unless the caller holds the lock; otherwise the content is replaced and 200 answered.
   */
  function UpdateOutcome(rows: map<Uuid, EmailRow>, uuid: Uuid, body: Json, userId: UserId, isUrl: Json -> bool, now: int)
    : (o: EmailController.Outcome)
    ensures SaveErrors(uuid, body) != [] ==> o == EmailController.Outcome(ValidationFailed(SaveErrors(uuid, body)), rows)
    ensures SaveErrors(uuid, body) == [] && FirstFailure(ForInEntries(Member(body, "updated_content").value), isUrl).Some? ==>
      o == EmailController.Outcome(FailureReply(FirstFailure(ForInEntries(Member(body, "updated_content").value), isUrl).value), rows)
    ensures SaveErrors(uuid, body) == [] && FirstFailure(ForInEntries(Member(body, "updated_content").value), isUrl).None? ==>
      if uuid in rows && rows[uuid].lockedBy == Some(userId) then
        o == EmailController.Outcome(Reply(200, "Contenido del correo editable actualizado exitosamente."),
                                     ContentUpdated(rows, uuid, Member(body, "updated_content").value, userId, now))
      else o == EmailController.Outcome(Reply(403, NotHolder), rows)
  {
    var errors := SaveErrors(uuid, body);
    if errors != [] then EmailController.Outcome(ValidationFailed(errors), rows)
    else
      var content := Member(body, "updated_content").value;
      match FirstFailure(ForInEntries(content), isUrl)
      case Some(f) => EmailController.Outcome(FailureReply(f), rows)
      case None =>
        if uuid !in rows || rows[uuid].lockedBy != Some(userId) then EmailController.Outcome(Reply(403, NotHolder), rows)
        else EmailController.Outcome(Reply(200, "Contenido del correo editable actualizado exitosamente."),
                                     ContentUpdated(rows, uuid, content, userId, now))
  }

  method UpdateEmail(table: EmailTable, uuid: Uuid, body: Json, userId: UserId, isUrl: Json -> bool, now: int)
    returns (resp: Response)
    requires table.Valid()
    modifies table
    ensures table.Valid()
    ensures EmailController.Outcome(resp, table.rows) == UpdateOutcome(old(table.rows), uuid, body, userId, isUrl, now)
  {
    var errors := SaveErrors(uuid, body);
    if errors != [] {
      return ValidationFailed(errors);
    }
    var content := Member(body, "updated_content").value;
    var failure := CheckEntries(ForInEntries(content), isUrl);
    if failure.Some? {
      return FailureReply(failure.value);
    }
    var status := table.GetEmailLockStatus(uuid);
    if status.None? || status.value.lockedBy != Some(userId) {
      return Reply(403, NotHolder);
    }
    var _ := table.UpdateEmailContent(uuid, content, userId, now);
    resp := Reply(200, "Contenido del correo editable actualizado exitosamente.");
  }

  /** Only the holder saves here: an unlocked email, which the refactored route lets anyone save, is refused. */
  lemma SaveNeedsHolder(rows: map<Uuid, EmailRow>, uuid: Uuid, body: Json, userId: UserId, isUrl: Json -> bool, now: int)
    ensures var o := UpdateOutcome(rows, uuid, body, userId, isUrl, now);
      o.response.status == 200 ==> uuid in rows && rows[uuid].lockedBy == Some(userId)
    ensures var o := UpdateOutcome(rows, uuid, body, userId, isUrl, now);
      o.response.status != 200 ==> o.rows == rows
    ensures AllLockConsistent(rows) && uuid in rows && !rows[uuid].isLocked ==>
      UpdateOutcome(rows, uuid, body, userId, isUrl, now).rows == rows
  {
  }

  lemma SectionsKeyIsNotLink()
    ensures !Includes("sections", "enlace_")
  {
    var s, p := "sections", "enlace_";
    assert s[0..7][0] == s[0] != p[0];
    assert s[1..8][1] == s[2] != p[1];
    assert !StartsAt(s, 0, p) && !StartsAt(s, 1, p);
  }

  /**
   * Content in the sections format, which the controller's updateEmail saves, never saves here: its
   * top-level `sections` entry holds an array, which the legacy rich-text check throws on.
   */
  lemma SectionsFormatNeverSaves(rows: map<Uuid, EmailRow>, uuid: Uuid, body: Json, userId: UserId, isUrl: Json -> bool, now: int)
    requires EmailController.UpdateEmailRefusal([], body, isUrl).None?
    ensures var o := UpdateOutcome(rows, uuid, body, userId, isUrl, now);
      o.response.status != 200 && o.rows == rows
  {
    var content := Member(body, "updated_content");
    if SaveErrors(uuid, body) == [] {
      var fields := content.value.fields;
      var sections := Lookup(fields, "sections");
      var i :| 0 <= i < |fields| && fields[i] == Field("sections", sections.value);
      SectionsKeyIsNotLink();
      assert EntryFailure(fields[i], isUrl) == Some(Thrown);
      FirstFailureNoneIff(fields, isUrl);
    }
  }

  // ---------------------------------------------------------------------------
  // DELETE, lock and unlock
  // ---------------------------------------------------------------------------

  /** Delete: 404 when missing; 409 naming the holder when another user holds the lock; otherwise the row is removed. */
  function DeleteOutcome(rows: map<Uuid, EmailRow>, users: map<UserId, string>, uuid: Uuid, userId: UserId)
    : (o: EmailController.Outcome)
    ensures uuid !in rows ==> o == EmailController.Outcome(Reply(404, "Correo editable no encontrado."), rows)
    ensures uuid in rows && HeldByOther(StatusOf(rows, uuid).value, userId) ==>
      o == EmailController.Outcome(Reply(409, "Este correo está siendo editado por " + HolderName(users, rows[uuid].lockedBy)
                                              + " y no se puede eliminar."), rows)
    ensures uuid in rows && !HeldByOther(StatusOf(rows, uuid).value, userId) ==>
      o == EmailController.Outcome(Reply(200, "Correo eliminado exitosamente."), rows - {uuid})
  {
    if uuid !in rows then EmailController.Outcome(Reply(404, "Correo editable no encontrado."), rows)
    else if HeldByOther(StatusOf(rows, uuid).value, userId) then
      EmailController.Outcome(Reply(409, "Este correo está siendo editado por " + HolderName(users, rows[uuid].lockedBy)
                                         + " y no se puede eliminar."), rows)
    else EmailController.Outcome(Reply(200, "Correo eliminado exitosamente."), rows - {uuid})
  }

  method DeleteEmail(table: EmailTable, users: map<UserId, string>, uuid: Uuid, userId: UserId) returns (resp: Response)
    requires table.Valid()
    modifies table
    ensures table.Valid()
    ensures EmailController.Outcome(resp, table.rows) == DeleteOutcome(old(table.rows), users, uuid, userId)
  {
    var status := table.GetEmailLockStatus(uuid);
    if status.None? {
      return Reply(404, "Correo editable no encontrado.");
    }
    if HeldByOther(status.value, userId) {
      return Reply(409, "Este correo está siendo editado por " + HolderName(users, status.value.lockedBy) + " y no se puede eliminar.");
    }
    var affected := table.DeleteEmail(uuid);
    if affected == 0 {
      return Reply(404, "Correo no encontrado para eliminar.");
    }
    resp := Reply(200, "Correo eliminado exitosamente.");
  }

  /** Lock: 404 when missing; 409 naming the holder when another user holds it; otherwise the caller becomes holder. */
  function LockOutcome(rows: map<Uuid, EmailRow>, users: map<UserId, string>, uuid: Uuid, userId: UserId)
    : (o: EmailController.Outcome)
    ensures uuid !in rows ==> o == EmailController.Outcome(Reply(404, "Correo no encontrado."), rows)
    ensures uuid in rows && HeldByOther(StatusOf(rows, uuid).value, userId) ==>
      o == EmailController.Outcome(Reply(409, "Este correo ya está bloqueado por " + HolderName(users, rows[uuid].lockedBy) + "."), rows)
    ensures uuid in rows && !HeldByOther(StatusOf(rows, uuid).value, userId) ==>
      o == EmailController.Outcome(Reply(200, "Correo bloqueado para edición."), Locked(rows, uuid, userId))
  {
    if uuid !in rows then EmailController.Outcome(Reply(404, "Correo no encontrado."), rows)
    else if HeldByOther(StatusOf(rows, uuid).value, userId) then
      EmailController.Outcome(Reply(409, "Este correo ya está bloqueado por " + HolderName(users, rows[uuid].lockedBy) + "."), rows)
    else EmailController.Outcome(Reply(200, "Correo bloqueado para edición."), Locked(rows, uuid, userId))
  }

  method LockEmail(table: EmailTable, users: map<UserId, string>, uuid: Uuid, userId: UserId) returns (resp: Response)
    requires table.Valid()
    modifies table
    ensures table.Valid()
    ensures EmailController.Outcome(resp, table.rows) == LockOutcome(old(table.rows), users, uuid, userId)
  {
    var status := table.GetEmailLockStatus(uuid);
    if status.None? {
      return Reply(404, "Correo no encontrado.");
    }
    if HeldByOther(status.value, userId) {
      return Reply(409, "Este correo ya está bloqueado por " + HolderName(users, status.value.lockedBy) + ".");
    }
    table.LockEmail(uuid, userId);
    resp := Reply(200, "Correo bloqueado para edición.");
  }

  /** The legacy lock, delete and unlock decide as the controller's do; only the 409 wording differs. */
  lemma SameDecisionsAsController(rows: map<Uuid, EmailRow>, users: map<UserId, string>, uuid: Uuid, userId: UserId)
    ensures LockOutcome(rows, users, uuid, userId).rows == EmailController.LockOutcome(rows, uuid, userId).rows
    ensures LockOutcome(rows, users, uuid, userId).response.status == EmailController.LockOutcome(rows, uuid, userId).response.status
    ensures DeleteOutcome(rows, users, uuid, userId).rows == EmailController.DeleteOutcome(rows, uuid, userId).rows
    ensures DeleteOutcome(rows, users, uuid, userId).response.status == EmailController.DeleteOutcome(rows, uuid, userId).response.status
  {
  }

  /** Unlock: as the controller's, 404 when missing, 403 unless the caller is the holder, otherwise the lock is cleared. */
  method UnlockEmail(table: EmailTable, uuid: Uuid, userId: UserId) returns (resp: Response)
    requires table.Valid()
    modifies table
    ensures table.Valid()
    ensures EmailController.Outcome(resp, table.rows) == EmailController.UnlockOutcome(old(table.rows), uuid, userId)
  {
    var status := table.GetEmailLockStatus(uuid);
    if status.None? {
      return Reply(404, "Correo no encontrado.");
    }
    if status.value.lockedBy == Some(userId) {
      table.UnlockEmail(uuid);
      resp := Reply(200, "Correo desbloqueado.");
    } else {
      resp := Reply(403, "No tienes permiso para desbloquear este correo.");
    }
  }

  // ---------------------------------------------------------------------------
  // Templates
  // ---------------------------------------------------------------------------

  /** GET /api/templates/:id: 404 when missing; otherwise the html with its placeholder keys, unique, in first-occurrence order. */
  method GetTemplateById(table: TemplateTable, id: TemplateId) returns (resp: Response)
    ensures id !in table.rows ==> resp == Reply(404, "Template no encontrado.")
    ensures id in table.rows ==>
      var html := table.rows[id].htmlContent;
      && resp.status == 200
      && Member(resp.body, "html_content") == Some(JStr(html))
      && Member(resp.body, "placeholders") == Some(JArr(Strings(Unique(PlaceholderKeys(html, 0)))))
  {
    var html := table.GetTemplateById(id);
    if html.None? {
      return Reply(404, "Template no encontrado.");
    }
    var placeholders := CollectPlaceholders(html.value);
    resp := Response(200, JObj([Field("html_content", JStr(html.value)),
                                Field("placeholders", JArr(Strings(placeholders)))]));
  }

  function Strings(keys: seq<string>): (r: seq<Json>)
    ensures |r| == |keys| && forall i :: 0 <= i < |keys| ==> r[i] == JStr(keys[i])
  {
    seq(|keys|, i requires 0 <= i < |keys| => JStr(keys[i]))
  }

  const NameLength := "El nombre debe tener entre 3 y 255 caracteres."
  const NeedsPlaceholder := "Debe contener al menos un placeholder con el formato {{nombre_del_campo}}."

  /**
   * `body('name').isString().trim().notEmpty().isLength({ min: 3, max: 255 })`: a string whose
   * trimmed form is 3 to 255 characters long.
   */
  function NameErrors(v: Option<Json>): (errs: seq<Json>)
    ensures errs == [] <==> v.Some? && v.value.JStr? && 3 <= VisibleLength(Trim(v.value.s)) <= 255
  {
    if !(v.Some? && v.value.JStr?) then IsStringErrors("body", "name", v, DefaultMessage)
    else
      var t := Trim(v.value.s);
      NotEmptyErrors("body", "name", Some(JStr(t)), DefaultMessage) + IsLengthErrors("body", "name", t, 3, 255, NameLength)
  }

  /** `body('html_content').isString().notEmpty().custom(...)`: a non-empty string holding a `{{ key }}` placeholder. */
  function HtmlErrors(v: Option<Json>): (errs: seq<Json>)
    ensures errs == [] <==> v.Some? && v.value.JStr? && v.value.s != "" && HasPlaceholder(v.value.s)
  {
    if !(v.Some? && v.value.JStr?) then IsStringErrors("body", "html_content", v, DefaultMessage)
    else
      var h := v.value.s;
      NotEmptyErrors("body", "html_content", v, DefaultMessage)
      + (if HasPlaceholder(h) then [] else [ValidatorError("body", "html_content", v, NeedsPlaceholder)])
  }

  function TemplateErrors(body: Json): seq<Json>
  {
    NameErrors(Member(body, "name")) + HtmlErrors(Member(body, "html_content"))
  }

  /** The name the handlers store: the trimmed string (the `trim()` sanitizer rewrites `req.body.name`). */
  function StoredName(body: Json): string
  {
    var v := Member(body, "name");
    if v.Some? && v.value.JStr? then Trim(v.value.s) else ""
  }

  function StoredHtml(body: Json): string
  {
    var v := Member(body, "html_content");
    if v.Some? && v.value.JStr? then v.value.s else ""
  }

  /** What the template rules admit: a name of 3 to 255 characters after trimming, and html with a placeholder. */
  lemma TemplateRulesAdmit(body: Json)
    ensures TemplateErrors(body) == [] ==>
      3 <= VisibleLength(StoredName(body)) <= 255 && HasPlaceholder(StoredHtml(body))
    ensures TemplateErrors(body) == [] <==>
      && Member(body, "name").Some? && Member(body, "name").value.JStr?
      && Member(body, "html_content").Some? && Member(body, "html_content").value.JStr?
      && 3 <= VisibleLength(StoredName(body)) <= 255 && StoredHtml(body) != "" && HasPlaceholder(StoredHtml(body))
  {
  }

  /** POST /api/templates: 403 for non-admins; 400 with the rule errors; 409 for a name in use; otherwise 201. */
  method CreateTemplate(table: TemplateTable, user: User, body: Json) returns (resp: Response)
    requires table.Valid()
    modifies table
    ensures table.Valid()
    ensures (resp, table.rows) ==
      if !IsAdmin(user) then (Reply(403, NotAdmin), old(table.rows))
      else if TemplateErrors(body) != [] then (ValidationFailed(TemplateErrors(body)), old(table.rows))
      else if old(NameTaken(table.rows, StoredName(body))) then (Reply(409, DuplicateName), old(table.rows))
      else (Reply(201, "Template creado exitosamente."),
            old(table.rows)[old(table.nextId) := Template(StoredName(body), StoredHtml(body), user.id)])
  {
    if Admin(Some(user)).Halt? {
      return Reply(403, NotAdmin);
    }
    var errors := TemplateErrors(body);
    if errors != [] {
      return ValidationFailed(errors);
    }
    var r := table.CreateTemplate(StoredName(body), StoredHtml(body), user.id);
    if r.Fail? {
      return Reply(409, DuplicateName);
    }
    resp := Reply(201, "Template creado exitosamente.");
  }

  /** `param('id').isInt()` */
  function IdErrors(id: string): (errs: seq<Json>)
    ensures errs == [] <==> IsIntLiteral(id)
  {
    if IsIntLiteral(id) then [] else [ValidatorError("params", "id", Some(JStr(id)), "ID de template inválido.")]
  }

  /**
   * PUT /api/templates/:id: 403 for non-admins; 400 with the rule errors; 409 when another template
   * holds the name; 404 when no row matched; otherwise name and html are replaced and 200 answered.
   */
  method UpdateTemplate(table: TemplateTable, user: User, id: string, body: Json) returns (resp: Response)
    requires table.Valid()
    modifies table
    ensures table.Valid()
    ensures !IsAdmin(user) ==> resp == Reply(403, NotAdmin) && table.rows == old(table.rows)
    ensures IsAdmin(user) && IdErrors(id) + TemplateErrors(body) != [] ==>
      resp == ValidationFailed(IdErrors(id) + TemplateErrors(body)) && table.rows == old(table.rows)
    ensures IsAdmin(user) && IdErrors(id) + TemplateErrors(body) == [] ==>
      var key := IntValue(id);
      if old(NameTakenByOther(table.rows, StoredName(body), key)) then
        resp == Reply(409, DuplicateOtherName) && table.rows == old(table.rows)
      else if key !in old(table.rows) then
        resp == Reply(404, "Template no encontrado para actualizar.") && table.rows == old(table.rows)
      else
        resp == Reply(200, "Template actualizado exitosamente.")
        && table.rows == Renamed(old(table.rows), key, StoredName(body), StoredHtml(body))
  {
    if Admin(Some(user)).Halt? {
      return Reply(403, NotAdmin);
    }
    var errors := IdErrors(id) + TemplateErrors(body);
    if errors != [] {
      return ValidationFailed(errors);
    }
    var r := table.UpdateTemplate(IntValue(id), StoredName(body), StoredHtml(body));
    if r.Fail? {
      return Reply(409, DuplicateOtherName);
    }
    if r.value == 0 {
      return Reply(404, "Template no encontrado para actualizar.");
    }
    resp := Reply(200, "Template actualizado exitosamente.");
  }

  /** DELETE /api/templates/:id: 403 for non-admins; 404 when no row matched; otherwise only that id is removed. */
  method DeleteTemplate(table: TemplateTable, user: User, id: TemplateId) returns (resp: Response)
    requires table.Valid()
    modifies table
    ensures table.Valid()
    ensures !IsAdmin(user) ==> resp == Reply(403, NotAdmin) && table.rows == old(table.rows)
    ensures IsAdmin(user) ==> table.rows == old(table.rows) - {id}
    ensures IsAdmin(user) && id !in old(table.rows) ==> resp == Reply(404, "Template no encontrado para eliminar.")
    ensures IsAdmin(user) && id in old(table.rows) ==> resp == Reply(200, "Template eliminado exitosamente.")
  {
    if Admin(Some(user)).Halt? {
      return Reply(403, NotAdmin);
    }
    var affected := table.DeleteTemplate(id);
    if affected == 0 {
      return Reply(404, "Template no encontrado para eliminar.");
    }
    resp := Reply(200, "Template eliminado exitosamente.");
  }
}
