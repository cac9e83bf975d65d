/**
 * The section-template handlers (backend/controllers/sectionTemplateController.js): the
 * required-field check and how service answers and thrown error codes become replies.
 */
module SectionTemplateController {
  import opened Js
  import opened Http

  /** What an awaited service call gave: its value, or a thrown error with its `code`, if any. */
  datatype Called<+T> = Done(value: T) | Thrown(code: Option<string>)

  const Required := "Todos los campos son requeridos."
  const DuplicateKey := "La clave de tipo (type_key) ya existe."
  const NotFound := "Plantilla de sección no encontrada."

  /** `name`, `type_key` and `html_content` are all truthy. */
  predicate HasAllFields(body: Json)
  {
    Truthy(Member(body, "name")) && Truthy(Member(body, "type_key")) && Truthy(Member(body, "html_content"))
  }

  predicate DuplicateEntry<T>(c: Called<T>)
  {
    c.Thrown? && c.code == Some("ER_DUP_ENTRY")
  }

  /**
   * create: 400, calling nothing, when a field is missing; 201 with the created section; 409 for a
   * duplicate-key error; 500 for any other error.
   */
  function CreateSectionTemplate(body: Json, created: Called<Json>): (h: Handled)
    ensures !HasAllFields(body) ==> h == Handled(Reply(400, Required), false)
    ensures HasAllFields(body) ==> h.wrote
    ensures h.wrote && created.Done? ==> h.response == Response(201, created.value)
    ensures h.wrote && created.Thrown? ==>
      h.response == (if DuplicateEntry(created) then Reply(409, DuplicateKey) else Reply(500, "Error al crear la plantilla de sección."))
  {
    if !HasAllFields(body) then Handled(Reply(400, Required), false)
    else match created
      case Done(section) => Handled(Response(201, section), true)
      case Thrown(code) =>
        if code == Some("ER_DUP_ENTRY") then Handled(Reply(409, DuplicateKey), true)
        else Handled(Reply(500, "Error al crear la plantilla de sección."), true)
  }

  /**
   * update: the same 400 check; 404 when no row was affected; 200 otherwise; 409 for a duplicate-key
   * error and 500 for any other error.
   */
  function UpdateSectionTemplate(body: Json, updated: Called<nat>): (h: Handled)
    ensures !HasAllFields(body) ==> h == Handled(Reply(400, Required), false)
    ensures HasAllFields(body) ==> h.wrote
    ensures h.wrote && updated == Done(0) ==> h.response == Reply(404, NotFound)
    ensures h.wrote && updated.Done? && updated.value != 0 ==>
      h.response == Reply(200, "Plantilla de sección actualizada exitosamente.")
    ensures h.wrote && updated.Thrown? ==>
      h.response == (if DuplicateEntry(updated) then Reply(409, DuplicateKey) else Reply(500, "Error al actualizar la plantilla de sección."))
  {
    if !HasAllFields(body) then Handled(Reply(400, Required), false)
    else match updated
      case Done(0) => Handled(Reply(404, NotFound), true)
      case Done(_) => Handled(Reply(200, "Plantilla de sección actualizada exitosamente."), true)
      case Thrown(code) =>
        if code == Some("ER_DUP_ENTRY") then Handled(Reply(409, DuplicateKey), true)
        else Handled(Reply(500, "Error al actualizar la plantilla de sección."), true)
  }

  /** delete: 404 when no row was affected, 200 otherwise, 500 for any error (no duplicate case). */
  function DeleteSectionTemplate(deleted: Called<nat>): (r: Response)
    ensures deleted == Done(0) ==> r == Reply(404, NotFound)
    ensures deleted.Done? && deleted.value != 0 ==> r == Reply(200, "Plantilla de sección eliminada exitosamente.")
    ensures deleted.Thrown? ==> r == Reply(500, "Error al eliminar la plantilla de sección.")
  {
    match deleted
    case Done(0) => Reply(404, NotFound)
    case Done(_) => Reply(200, "Plantilla de sección eliminada exitosamente.")
    case Thrown(_) => Reply(500, "Error al eliminar la plantilla de sección.")
  }

  /** 409 arises exactly from a duplicate-key error, on create and on update alike. */
  lemma ConflictOnlyFromDuplicateKey(body: Json, created: Called<Json>, updated: Called<nat>)
    requires HasAllFields(body)
    ensures CreateSectionTemplate(body, created).response.status == 409 <==> DuplicateEntry(created)
    ensures UpdateSectionTemplate(body, updated).response.status == 409 <==> DuplicateEntry(updated)
  {
  }

  /** An empty string, zero, false or null counts as missing. */
  lemma FalsyFieldsMissing(name: Json)
    requires name == JStr("") || name == JNum(0) || name == JBool(false) || name == JNull
    ensures !HasAllFields(JObj([Field("name", name), Field("type_key", JStr("hero")), Field("html_content", JStr("<td></td>"))]))
  {
  }
}
