/**
 * The email handlers (backend/controllers/emailController.js): the content validators, the
 * validation walks of createEmail and updateEmail, and the lock, unlock, force-unlock and delete
 * decisions over the emails table.
 */
module EmailController {
  import opened Js
  import opened Http
  import opened EmailService

  const EmptyContent := "El contenido no puede estar vacío."
  const InvalidUrl := "Debe ser una URL válida."
  /** The TypeError thrown by `section.content` when a section is `null`. */
  const NullSection := "Cannot read properties of null (reading 'content')"
  /** The error mysql2 throws when a bound parameter is `undefined`. */
  const UndefinedBind := "Bind parameters must not contain undefined. To pass SQL NULL specify JS null"
  const BadFormat := "El formato del contenido es inválido. Se esperaba un objeto con un array de secciones."

  // ---------------------------------------------------------------------------
  // Validators (None: accepted; Some(message): the Error thrown)
  // ---------------------------------------------------------------------------

  /**
   * validateRichContent: non-strings, the empty string and exactly '<p></p>' pass; any other string
   * must keep some text after its `<...>` tags are removed and it is trimmed.
   */
  function ValidateRichContent(value: Json): (err: Option<string>)
    ensures err.Some? ==> err == Some(EmptyContent)
  {
    if !value.JStr? || value.s == "" || value.s == "<p></p>" then None
    else if Trim(StripTags(value.s)) == "" then Some(EmptyContent)
    else None
  }

  /** The exempt values are accepted although they carry no text. */
  lemma RichContentExemptions(value: Json)
    requires !value.JStr? || value == JStr("") || value == JStr("<p></p>")
    ensures ValidateRichContent(value).None?
  {
  }

  /** Any other string is rejected exactly when everything outside its tags is whitespace. */
  lemma RichContentRejectsBlank(s: string)
    requires s != "" && s != "<p></p>"
    ensures ValidateRichContent(JStr(s)).Some? <==> Blank(StripTags(s))
  {
    var t := StripTags(s);
    TrimEmptyIff(t);
    assert ValidateRichContent(JStr(s)).Some? <==> Trim(t) == "";
  }

  /** Every code point of `s` is whitespace. */
  predicate Blank(s: string)
  {
    forall k :: 0 <= k < |s| ==> IsWhitespace(s[k])
  }

  /** validateUrl: `new URL(value)` must not throw; URL parsing is the oracle `isUrl`. */
  function ValidateUrl(value: Json, isUrl: Json -> bool): (err: Option<string>)
    ensures err.None? <==> isUrl(value)
    ensures err.Some? ==> err.value == InvalidUrl
  {
    if isUrl(value) then None else Some(InvalidUrl)
  }

  /**
   * The check applied to one `key`/`value` entry: keys containing `enlace_` must be URLs; in the
   * section walk of updateEmail, keys starting with `image_` are skipped; every other value is
   * rich-text validated.
   */
  function FieldError(f: Field, isUrl: Json -> bool, skipImages: bool): (err: Option<string>)
    ensures Includes(f.key, "enlace_") ==> err == ValidateUrl(f.value, isUrl)
    ensures !Includes(f.key, "enlace_") && skipImages && StartsWith(f.key, "image_") ==> err == None
    ensures !Includes(f.key, "enlace_") && !(skipImages && StartsWith(f.key, "image_")) ==> err == ValidateRichContent(f.value)
  {
    if Includes(f.key, "enlace_") then ValidateUrl(f.value, isUrl)
    else if skipImages && StartsWith(f.key, "image_") then None
    else ValidateRichContent(f.value)
  }

  /** The error the walk over `entries` stops at: that of the first entry that fails. */
  function FirstFieldError(entries: seq<Field>, isUrl: Json -> bool, skipImages: bool): Option<string>
  {
    if entries == [] then None
    else match FieldError(entries[0], isUrl, skipImages)
      case Some(e) => Some(e)
      case None => FirstFieldError(entries[1..], isUrl, skipImages)
  }

  /** The walk passes exactly when every entry passes its check. */
  lemma {:induction false} FirstFieldErrorNoneIff(entries: seq<Field>, isUrl: Json -> bool, skipImages: bool)
    ensures FirstFieldError(entries, isUrl, skipImages).None? <==>
      forall i :: 0 <= i < |entries| ==> FieldError(entries[i], isUrl, skipImages).None?
  {
    if entries != [] {
      FirstFieldErrorNoneIff(entries[1..], isUrl, skipImages);
      assert forall i :: 1 <= i < |entries| ==> entries[i] == entries[1..][i - 1];
    }
  }

  /** A failing walk reports the error of an entry all of whose predecessors passed. */
  lemma {:induction false} FirstFieldErrorSome(entries: seq<Field>, isUrl: Json -> bool, skipImages: bool)
    requires FirstFieldError(entries, isUrl, skipImages).Some?
    ensures exists i :: (0 <= i < |entries| && FieldError(entries[i], isUrl, skipImages) == FirstFieldError(entries, isUrl, skipImages)
      && forall j :: 0 <= j < i ==> FieldError(entries[j], isUrl, skipImages).None?)
  {
    if FieldError(entries[0], isUrl, skipImages).None? {
      FirstFieldErrorSome(entries[1..], isUrl, skipImages);
      var i :| 0 <= i < |entries[1..]| && FieldError(entries[1..][i], isUrl, skipImages) == FirstFieldError(entries[1..], isUrl, skipImages)
        && forall j :: 0 <= j < i ==> FieldError(entries[1..][j], isUrl, skipImages).None?;
      assert forall j :: 1 <= j < i + 1 ==> entries[j] == entries[1..][j - 1];
      assert entries[i + 1] == entries[1..][i];
    }
  }

  /** The `for (const key in obj)` validation loop, stopping at the first entry that throws. */
  method CheckFields(entries: seq<Field>, isUrl: Json -> bool, skipImages: bool) returns (err: Option<string>)
    ensures err == FirstFieldError(entries, isUrl, skipImages)
  {
    var i := 0;
    while i < |entries|
      invariant i <= |entries|
      invariant FirstFieldError(entries, isUrl, skipImages) == FirstFieldError(entries[i..], isUrl, skipImages)
      decreases |entries| - i
    {
      assert entries[i..][0] == entries[i] && entries[i..][1..] == entries[i + 1..];
      var e := FieldError(entries[i], isUrl, skipImages);
      if e.Some? {
        return e;
      }
      i := i + 1;
    }
    return None;
  }

  /** The entries visited by `for (const key in section.content)`; None when reading `.content` throws. */
  function SectionEntries(section: Json): (r: Option<seq<Field>>)
    ensures r.None? <==> section.JNull?
  {
    if section.JNull? then None
    else match Member(section, "content")
      case None => Some([])
      case Some(c) => Some(ForInEntries(c))
  }

  function SectionError(section: Json, isUrl: Json -> bool): Option<string>
  {
    match SectionEntries(section)
    case None => Some(NullSection)
    case Some(entries) => FirstFieldError(entries, isUrl, true)
  }

  /** The error the nested walk over `sections` stops at. */
  function FirstSectionError(sections: seq<Json>, isUrl: Json -> bool): Option<string>
  {
    if sections == [] then None
    else match SectionError(sections[0], isUrl)
      case Some(e) => Some(e)
      case None => FirstSectionError(sections[1..], isUrl)
  }

  /** The section walk passes exactly when no section is null and every entry of every section passes. */
  lemma {:induction false} FirstSectionErrorNoneIff(sections: seq<Json>, isUrl: Json -> bool)
    ensures FirstSectionError(sections, isUrl).None? <==>
      forall i :: 0 <= i < |sections| ==>
        SectionEntries(sections[i]).Some?
        && forall k :: 0 <= k < |SectionEntries(sections[i]).value| ==>
             FieldError(SectionEntries(sections[i]).value[k], isUrl, true).None?
  {
    if sections != [] {
      FirstSectionErrorNoneIff(sections[1..], isUrl);
      assert forall i :: 1 <= i < |sections| ==> sections[i] == sections[1..][i - 1];
      match SectionEntries(sections[0])
      case None =>
      case Some(entries) => FirstFieldErrorNoneIff(entries, isUrl, true);
    }
  }

  /** The nested `for...of` / `for...in` loop of updateEmail. */
  method CheckSections(sections: seq<Json>, isUrl: Json -> bool) returns (err: Option<string>)
    ensures err == FirstSectionError(sections, isUrl)
  {
    var i := 0;
    while i < |sections|
      invariant i <= |sections|
      invariant FirstSectionError(sections, isUrl) == FirstSectionError(sections[i..], isUrl)
      decreases |sections| - i
    {
      assert sections[i..][0] == sections[i] && sections[i..][1..] == sections[i + 1..];
      var entries := SectionEntries(sections[i]);
      if entries.None? {
        return Some(NullSection);
      }
      var e := CheckFields(entries.value, isUrl, true);
      if e.Some? {
        return e;
      }
      i := i + 1;
    }
    return None;
  }

  // ---------------------------------------------------------------------------
  // createEmail and updateEmail
  // ---------------------------------------------------------------------------

  /** The entries of `for (const key in initial_content)`; nothing for `undefined`. */
  function BodyEntries(v: Option<Json>): seq<Field>
  {
    if v.Some? then ForInEntries(v.value) else []
  }

  /** `201 { uuid, message }` */
  function CreatedBody(uuid: Uuid): Json
  {
    JObj([Field("uuid", JStr(uuid)), Field("message", JStr("Correo editable creado y bloqueado exitosamente."))])
  }

  /**
   * What createEmail answers, before any row is written: the validation errors, then the first
   * entry of `initial_content` that fails, then a missing field that cannot be bound. None means
   * the row is inserted.
   */
  function CreateEmailRefusal(errors: seq<Json>, body: Json, isUrl: Json -> bool): (r: Option<Response>)
    ensures errors != [] ==> r == Some(ValidationFailed(errors))
    ensures r.Some? ==> r.value.status == 400
    ensures errors == [] && FirstFieldError(BodyEntries(Member(body, "initial_content")), isUrl, false).Some? ==>
      r == Some(Reply(400, FirstFieldError(BodyEntries(Member(body, "initial_content")), isUrl, false).value))
    ensures r.None? <==>
      && errors == []
      && FirstFieldError(BodyEntries(Member(body, "initial_content")), isUrl, false).None?
      && Member(body, "template_id").Some? && Member(body, "initial_content").Some?
  {
    var initial := Member(body, "initial_content");
    if errors != [] then Some(ValidationFailed(errors))
    else match FirstFieldError(BodyEntries(initial), isUrl, false)
      case Some(e) => Some(Reply(400, e))
      case None =>
        if Member(body, "template_id").None? || initial.None? then Some(Reply(400, UndefinedBind))
        else None
  }

  /**
   * createEmail: on a refusal nothing is written; otherwise a row locked by the caller and holding
   * `initial_content` verbatim is inserted under the fresh `uuid`, which is returned with 201.
   */
  function CreateOutcome(rows: map<Uuid, EmailRow>, errors: seq<Json>, body: Json, userId: UserId, uuid: Uuid,
                         isUrl: Json -> bool, now: int): (o: Outcome)
    requires uuid !in rows
    ensures CreateEmailRefusal(errors, body, isUrl).Some? ==>
      o == Outcome(CreateEmailRefusal(errors, body, isUrl).value, rows)
    ensures CreateEmailRefusal(errors, body, isUrl).None? ==>
      && o.response == Response(201, CreatedBody(uuid))
      && o.rows.Keys == rows.Keys + {uuid}
      && o.rows[uuid].content == Member(body, "initial_content").value
      && o.rows[uuid].isLocked && o.rows[uuid].lockedBy == Some(userId)
      && forall other :: other in rows ==> o.rows[other] == rows[other]
  {
    match CreateEmailRefusal(errors, body, isUrl)
    case Some(r) => Outcome(r, rows)
    case None =>
      Outcome(Response(201, CreatedBody(uuid)),
              rows[uuid := NewRow(Member(body, "template_id").value, Member(body, "initial_content").value, userId, now)])
  }

  method CreateEmail(table: EmailTable, errors: seq<Json>, body: Json, userId: UserId, uuid: Uuid, isUrl: Json -> bool, now: int)
    returns (resp: Response)
    requires table.Valid() && uuid !in table.rows
    modifies table
    ensures table.Valid()
    ensures Outcome(resp, table.rows) == CreateOutcome(old(table.rows), errors, body, userId, uuid, isUrl, now)
  {
    if errors != [] {
      return ValidationFailed(errors);
    }
    var templateId, initial := Member(body, "template_id"), Member(body, "initial_content");
    var err := CheckFields(BodyEntries(initial), isUrl, false);
    if err.Some? {
      return Reply(400, err.value);
    }
    if templateId.None? || initial.None? {
      return Reply(400, UndefinedBind);
    }
    var created := table.CreateEmail(uuid, templateId.value, initial.value, userId, now);
    resp := Response(201, CreatedBody(created));
  }

  /**
   * What updateEmail answers before saving: the validation errors; 400 when `updated_content` is
   * falsy or its `sections` is not an array; 400 with the first failing section's error.
   * None means the content is saved.
   */
  function UpdateEmailRefusal(errors: seq<Json>, body: Json, isUrl: Json -> bool): (r: Option<Response>)
    ensures errors != [] ==> r == Some(ValidationFailed(errors))
    ensures r.Some? ==> r.value.status == 400
    ensures errors == [] && !(Truthy(Member(body, "updated_content")) && IsArray(Member(Member(body, "updated_content").value, "sections"))) ==>
      r == Some(Reply(400, BadFormat))
    ensures r.None? <==>
      && errors == []
      && Truthy(Member(body, "updated_content"))
      && IsArray(Member(Member(body, "updated_content").value, "sections"))
      && FirstSectionError(Member(Member(body, "updated_content").value, "sections").value.items, isUrl).None?
  {
    var content := Member(body, "updated_content");
    if errors != [] then Some(ValidationFailed(errors))
    else if !Truthy(content) || !IsArray(Member(content.value, "sections")) then Some(Reply(400, BadFormat))
    else match FirstSectionError(Member(content.value, "sections").value.items, isUrl)
      case Some(e) => Some(Reply(400, e))
      case None => None
  }

  /**
   * updateEmail: on a refusal nothing is saved; otherwise the whole `updated_content` replaces the
   * stored content, with the caller as last modifier, and 200 is answered. The lock is neither
   * checked nor changed here.
   */
  function UpdateOutcome(rows: map<Uuid, EmailRow>, errors: seq<Json>, uuid: Uuid, body: Json, userId: UserId,
                         isUrl: Json -> bool, now: int): (o: Outcome)
    ensures UpdateEmailRefusal(errors, body, isUrl).Some? ==>
      o == Outcome(UpdateEmailRefusal(errors, body, isUrl).value, rows)
    ensures UpdateEmailRefusal(errors, body, isUrl).None? ==>
      && o.response == Reply(200, "Contenido del correo actualizado exitosamente.")
      && o.rows.Keys == rows.Keys
      && (uuid in rows ==> o.rows[uuid].content == Member(body, "updated_content").value
                           && o.rows[uuid].lastModifiedBy == Some(userId)
                           && StatusOf(o.rows, uuid) == StatusOf(rows, uuid))
      && forall other :: other in rows && other != uuid ==> o.rows[other] == rows[other]
  {
    match UpdateEmailRefusal(errors, body, isUrl)
    case Some(r) => Outcome(r, rows)
    case None =>
      Outcome(Reply(200, "Contenido del correo actualizado exitosamente."),
              ContentUpdated(rows, uuid, Member(body, "updated_content").value, userId, now))
  }

  method UpdateEmail(table: EmailTable, errors: seq<Json>, uuid: Uuid, body: Json, userId: UserId, isUrl: Json -> bool, now: int)
    returns (resp: Response)
    requires table.Valid()
    modifies table
    ensures table.Valid()
    ensures Outcome(resp, table.rows) == UpdateOutcome(old(table.rows), errors, uuid, body, userId, isUrl, now)
  {
    if errors != [] {
      return ValidationFailed(errors);
    }
    var content := Member(body, "updated_content");
    if !Truthy(content) || !IsArray(Member(content.value, "sections")) {
      return Reply(400, BadFormat);
    }
    var err := CheckSections(Member(content.value, "sections").value.items, isUrl);
    if err.Some? {
      return Reply(400, err.value);
    }
    var _ := table.UpdateEmailContent(uuid, content.value, userId, now);
    resp := Reply(200, "Contenido del correo actualizado exitosamente.");
  }

  // ---------------------------------------------------------------------------
  // Lock, unlock, force-unlock and delete
  // ---------------------------------------------------------------------------

  /** The reply of a handler together with the table it leaves behind. */
  datatype Outcome = Outcome(response: Response, rows: map<Uuid, EmailRow>)

  /** lockEmail: 404 when missing; 409, changing nothing, when another user holds the lock; otherwise the caller becomes holder. */
  function LockOutcome(rows: map<Uuid, EmailRow>, uuid: Uuid, userId: UserId): (o: Outcome)
    ensures uuid !in rows ==> o == Outcome(Reply(404, "Correo no encontrado."), rows)
    ensures uuid in rows && HeldByOther(StatusOf(rows, uuid).value, userId) ==>
      o == Outcome(Reply(409, "Este correo ya está bloqueado por otro usuario."), rows)
    ensures uuid in rows && !HeldByOther(StatusOf(rows, uuid).value, userId) ==>
      o == Outcome(Reply(200, "Correo bloqueado para edición."), Locked(rows, uuid, userId))
  {
    match StatusOf(rows, uuid)
    case None => Outcome(Reply(404, "Correo no encontrado."), rows)
    case Some(s) =>
      if HeldByOther(s, userId) then Outcome(Reply(409, "Este correo ya está bloqueado por otro usuario."), rows)
      else Outcome(Reply(200, "Correo bloqueado para edición."), Locked(rows, uuid, userId))
  }

  /** unlockEmail: 404 when missing; only the holder unlocks, anyone else gets 403, even for an email nobody holds. */
  function UnlockOutcome(rows: map<Uuid, EmailRow>, uuid: Uuid, userId: UserId): (o: Outcome)
    ensures uuid !in rows ==> o == Outcome(Reply(404, "Correo no encontrado."), rows)
    ensures uuid in rows && rows[uuid].lockedBy != Some(userId) ==>
      o == Outcome(Reply(403, "No tienes permiso para desbloquear este correo."), rows)
    ensures uuid in rows && rows[uuid].lockedBy == Some(userId) ==>
      o == Outcome(Reply(200, "Correo desbloqueado."), Unlocked(rows, uuid))
  {
    match StatusOf(rows, uuid)
    case None => Outcome(Reply(404, "Correo no encontrado."), rows)
    case Some(s) =>
      if s.lockedBy != Some(userId) then Outcome(Reply(403, "No tienes permiso para desbloquear este correo."), rows)
      else Outcome(Reply(200, "Correo desbloqueado."), Unlocked(rows, uuid))
  }

  /** forceUnlockEmail: 404 when missing; otherwise the lock is cleared whoever holds it. */
  function ForceUnlockOutcome(rows: map<Uuid, EmailRow>, uuid: Uuid): (o: Outcome)
    ensures uuid !in rows ==> o == Outcome(Reply(404, "Correo no encontrado."), rows)
    ensures uuid in rows ==> o == Outcome(Reply(200, "Correo desbloqueado por el administrador."), Unlocked(rows, uuid))
  {
    match StatusOf(rows, uuid)
    case None => Outcome(Reply(404, "Correo no encontrado."), rows)
    case Some(_) => Outcome(Reply(200, "Correo desbloqueado por el administrador."), Unlocked(rows, uuid))
  }

  /** deleteEmail: 404 when missing; 409, deleting nothing, when another user holds the lock; otherwise the row is removed. */
  function DeleteOutcome(rows: map<Uuid, EmailRow>, uuid: Uuid, userId: UserId): (o: Outcome)
    ensures uuid !in rows ==> o == Outcome(Reply(404, "Correo editable no encontrado."), rows)
    ensures uuid in rows && HeldByOther(StatusOf(rows, uuid).value, userId) ==>
      o == Outcome(Reply(409, "Este correo está siendo editado y no se puede eliminar."), rows)
    ensures uuid in rows && !HeldByOther(StatusOf(rows, uuid).value, userId) ==>
      o == Outcome(Reply(200, "Correo eliminado exitosamente."), rows - {uuid})
  {
    match StatusOf(rows, uuid)
    case None => Outcome(Reply(404, "Correo editable no encontrado."), rows)
    case Some(s) =>
      if HeldByOther(s, userId) then Outcome(Reply(409, "Este correo está siendo editado y no se puede eliminar."), rows)
      else Outcome(Reply(200, "Correo eliminado exitosamente."), rows - {uuid})
  }

  method LockEmail(table: EmailTable, uuid: Uuid, userId: UserId) returns (resp: Response)
    requires table.Valid()
    modifies table
    ensures table.Valid()
    ensures Outcome(resp, table.rows) == LockOutcome(old(table.rows), uuid, userId)
  {
    var email := table.GetEmailLockStatus(uuid);
    if email.None? {
      return Reply(404, "Correo no encontrado.");
    }
    if email.value.isLocked && email.value.lockedBy != Some(userId) {
      return Reply(409, "Este correo ya está bloqueado por otro usuario.");
    }
    table.LockEmail(uuid, userId);
    resp := Reply(200, "Correo bloqueado para edición.");
  }

  method UnlockEmail(table: EmailTable, uuid: Uuid, userId: UserId) returns (resp: Response)
    requires table.Valid()
    modifies table
    ensures table.Valid()
    ensures Outcome(resp, table.rows) == UnlockOutcome(old(table.rows), uuid, userId)
  {
    var email := table.GetEmailLockStatus(uuid);
    if email.None? {
      return Reply(404, "Correo no encontrado.");
    }
    if email.value.lockedBy != Some(userId) {
      return Reply(403, "No tienes permiso para desbloquear este correo.");
    }
    table.UnlockEmail(uuid);
    resp := Reply(200, "Correo desbloqueado.");
  }

  method ForceUnlockEmail(table: EmailTable, uuid: Uuid) returns (resp: Response)
    requires table.Valid()
    modifies table
    ensures table.Valid()
    ensures Outcome(resp, table.rows) == ForceUnlockOutcome(old(table.rows), uuid)
  {
    var email := table.GetEmailLockStatus(uuid);
    if email.None? {
      return Reply(404, "Correo no encontrado.");
    }
    table.UnlockEmail(uuid);
    resp := Reply(200, "Correo desbloqueado por el administrador.");
  }

  method DeleteEmail(table: EmailTable, uuid: Uuid, userId: UserId) returns (resp: Response)
    requires table.Valid()
    modifies table
    ensures table.Valid()
    ensures Outcome(resp, table.rows) == DeleteOutcome(old(table.rows), uuid, userId)
  {
    var email := table.GetEmailLockStatus(uuid);
    if email.None? {
      return Reply(404, "Correo editable no encontrado.");
    }
    if email.value.isLocked && email.value.lockedBy != Some(userId) {
      return Reply(409, "Este correo está siendo editado y no se puede eliminar.");
    }
    var affected := table.DeleteEmail(uuid);
    if affected == 0 {
      return Reply(404, "Correo no encontrado para eliminar.");
    }
    resp := Reply(200, "Correo eliminado exitosamente.");
  }

  // ---------------------------------------------------------------------------
  // The lock protocol across requests
  // ---------------------------------------------------------------------------

  /** Once one user's lock request succeeds, every other user's lock and delete requests get 409 until it is released. */
  lemma LockExcludesOthers(rows: map<Uuid, EmailRow>, uuid: Uuid, holder: UserId, other: UserId)
    requires LockOutcome(rows, uuid, holder).response.status == 200 && other != holder
    ensures var after := LockOutcome(rows, uuid, holder).rows;
      && LockOutcome(after, uuid, other) == Outcome(Reply(409, "Este correo ya está bloqueado por otro usuario."), after)
      && DeleteOutcome(after, uuid, other).response.status == 409
      && UnlockOutcome(after, uuid, other).response.status == 403
  {
  }

  /** A holder locking again gets 200 and the table stays as it is. */
  lemma RelockIsIdempotent(rows: map<Uuid, EmailRow>, uuid: Uuid, holder: UserId)
    requires LockOutcome(rows, uuid, holder).response.status == 200
    ensures var after := LockOutcome(rows, uuid, holder).rows;
      LockOutcome(after, uuid, holder) == Outcome(Reply(200, "Correo bloqueado para edición."), after)
  {
    LockIdempotent(rows, uuid, holder);
  }

  /** The holder can always release its lock, after which any user may lock or delete. */
  lemma HolderReleases(rows: map<Uuid, EmailRow>, uuid: Uuid, holder: UserId, anyone: UserId)
    requires LockOutcome(rows, uuid, holder).response.status == 200
    ensures var locked := LockOutcome(rows, uuid, holder).rows;
      var released := UnlockOutcome(locked, uuid, holder);
      && released.response.status == 200
      && LockOutcome(released.rows, uuid, anyone).response.status == 200
      && DeleteOutcome(released.rows, uuid, anyone).response.status == 200
  {
  }

  /** Unlocking an email that nobody holds is refused with 403 for every caller. */
  lemma UnlockFreeIsForbidden(rows: map<Uuid, EmailRow>, uuid: Uuid, userId: UserId)
    requires AllLockConsistent(rows) && uuid in rows && !rows[uuid].isLocked
    ensures UnlockOutcome(rows, uuid, userId) == Outcome(Reply(403, "No tienes permiso para desbloquear este correo."), rows)
  {
  }

  /** Force-unlock releases any lock, whoever holds it, so that any user can then take it. */
  lemma ForceUnlockFreesForAnyone(rows: map<Uuid, EmailRow>, uuid: Uuid, anyone: UserId)
    requires uuid in rows
    ensures var freed := ForceUnlockOutcome(rows, uuid).rows;
      && StatusOf(freed, uuid) == Some(LockStatus(false, None))
      && LockOutcome(freed, uuid, anyone).response.status == 200
  {
  }

  /** A newly created email is held by its creator: others are refused, the creator may unlock. */
  lemma CreatedEmailHeldByCreator(rows: map<Uuid, EmailRow>, uuid: Uuid, templateId: Json, content: Json, creator: UserId, other: UserId, now: int)
    requires other != creator
    ensures var created := rows[uuid := NewRow(templateId, content, creator, now)];
      && LockOutcome(created, uuid, other).response.status == 409
      && DeleteOutcome(created, uuid, other).response.status == 409
      && UnlockOutcome(created, uuid, creator).response.status == 200
  {
  }

  /** Each handler leaves the lock columns consistent: unlocked exactly when there is no holder. */
  lemma LockKeepsLockConsistent(rows: map<Uuid, EmailRow>, uuid: Uuid, userId: UserId)
    requires AllLockConsistent(rows)
    ensures AllLockConsistent(LockOutcome(rows, uuid, userId).rows)
  {
  }

  lemma UnlockKeepsLockConsistent(rows: map<Uuid, EmailRow>, uuid: Uuid, userId: UserId)
    requires AllLockConsistent(rows)
    ensures AllLockConsistent(UnlockOutcome(rows, uuid, userId).rows)
    ensures AllLockConsistent(ForceUnlockOutcome(rows, uuid).rows)
  {
  }

  lemma DeleteKeepsLockConsistent(rows: map<Uuid, EmailRow>, uuid: Uuid, userId: UserId)
    requires AllLockConsistent(rows)
    ensures AllLockConsistent(DeleteOutcome(rows, uuid, userId).rows)
  {
  }

  lemma SaveKeepsLockConsistent(rows: map<Uuid, EmailRow>, errors: seq<Json>, uuid: Uuid, body: Json, userId: UserId,
                                isUrl: Json -> bool, now: int)
    requires AllLockConsistent(rows)
    ensures AllLockConsistent(UpdateOutcome(rows, errors, uuid, body, userId, isUrl, now).rows)
  {
  }

  lemma CreateKeepsLockConsistent(rows: map<Uuid, EmailRow>, errors: seq<Json>, body: Json, userId: UserId, uuid: Uuid,
                                  isUrl: Json -> bool, now: int)
    requires AllLockConsistent(rows) && uuid !in rows
    ensures AllLockConsistent(CreateOutcome(rows, errors, body, userId, uuid, isUrl, now).rows)
  {
  }
}
