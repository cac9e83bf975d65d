/**
 * The template handlers (backend/controllers/templateController.js): the placeholder listing of
 * getTemplateById and the status codes chosen by create, update and delete.
 */
module TemplateController {
  import opened Js
  import opened Http
  import opened Placeholders
  import opened TemplateService

  const InternalError := "Error interno del servidor."

  /** `res.status(error.statusCode || 500).json({ message: error.message || 'Error interno del servidor.' })` */
  function ErrorReply(e: ServiceError): (r: Response)
    ensures r.status == (if e.statusCode.Some? && e.statusCode.value != 0 then e.statusCode.value else 500)
    ensures Member(r.body, "message") == Some(JStr(if e.message != "" then e.message else InternalError))
  {
    var status := if e.statusCode.Some? && e.statusCode.value != 0 then e.statusCode.value else 500;
    Reply(status, if e.message != "" then e.message else InternalError)
  }

  /** An error thrown without a status code, such as a storage error, is answered with 500. */
  lemma ErrorReplyFallback(message: string)
    ensures ErrorReply(ServiceError(None, message)).status == 500
    ensures ErrorReply(ServiceError(Some(0), message)).status == 500
  {
  }

  /** The service's duplicate-name errors reach the client as 409 with the service's message. */
  lemma ErrorReplyDuplicate()
    ensures ErrorReply(ServiceError(Some(409), DuplicateName)) == Reply(409, DuplicateName)
    ensures ErrorReply(ServiceError(Some(409), DuplicateOtherName)) == Reply(409, DuplicateOtherName)
  {
  }

  function Strings(keys: seq<string>): (r: seq<Json>)
    ensures |r| == |keys|
    ensures forall i :: 0 <= i < |keys| ==> r[i] == JStr(keys[i])
  {
    seq(|keys|, i requires 0 <= i < |keys| => JStr(keys[i]))
  }

  /** `{ html_content, placeholders }` */
  function TemplateBody(html: string, placeholders: seq<string>): (r: Json)
    ensures Member(r, "html_content") == Some(JStr(html))
    ensures Member(r, "placeholders") == Some(JArr(Strings(placeholders)))
  {
    JObj([Field("html_content", JStr(html)), Field("placeholders", JArr(Strings(placeholders)))])
  }

  /**
   * getTemplateById: 404 for a missing template; otherwise the html unchanged together with its
   * placeholder keys, each once, in order of first occurrence.
   */
  method GetTemplateById(table: TemplateTable, id: TemplateId) returns (resp: Response)
    ensures resp.status == 404 <==> id !in table.rows
    ensures id !in table.rows ==> resp == Reply(404, "Template no encontrado.")
    ensures id in table.rows ==>
      var html := table.rows[id].htmlContent;
      resp == Response(200, TemplateBody(html, Unique(PlaceholderKeys(html, 0))))
  {
    var template := table.GetTemplateById(id);
    if template.None? {
      return Reply(404, "Template no encontrado.");
    }
    var placeholders := CollectPlaceholders(template.value);
    resp := Response(200, TemplateBody(template.value, placeholders));
  }

  /** createTemplate: 400 with the validation errors; the service's error; otherwise 201. */
  method CreateTemplate(table: TemplateTable, errors: seq<Json>, name: string, htmlContent: string, userId: int)
    returns (resp: Response)
    requires table.Valid()
    modifies table
    ensures table.Valid()
    ensures errors != [] ==> resp == ValidationFailed(errors) && table.rows == old(table.rows)
    ensures errors == [] && old(NameTaken(table.rows, name)) ==>
      resp == Reply(409, DuplicateName) && table.rows == old(table.rows)
    ensures errors == [] && !old(NameTaken(table.rows, name)) ==>
      && resp == Reply(201, "Template creado exitosamente.")
      && table.rows == old(table.rows)[old(table.nextId) := Template(name, htmlContent, userId)]
  {
    if errors != [] {
      return ValidationFailed(errors);
    }
    var r := table.CreateTemplate(name, htmlContent, userId);
    if r.Fail? {
      ErrorReplyDuplicate();
      return ErrorReply(r.error);
    }
    resp := Reply(201, "Template creado exitosamente.");
  }

  /**
   * updateTemplate: 400 with the validation errors; 409 when another template holds the name;
   * 404 when no row was affected; otherwise 200. Keeping a template's own name succeeds.
   */
  method UpdateTemplate(table: TemplateTable, errors: seq<Json>, id: TemplateId, name: string, htmlContent: string)
    returns (resp: Response)
    requires table.Valid()
    modifies table
    ensures table.Valid()
    ensures errors != [] ==> resp == ValidationFailed(errors) && table.rows == old(table.rows)
    ensures errors == [] && old(NameTakenByOther(table.rows, name, id)) ==>
      resp == Reply(409, DuplicateOtherName) && table.rows == old(table.rows)
    ensures errors == [] && !old(NameTakenByOther(table.rows, name, id)) && id !in old(table.rows) ==>
      resp == Reply(404, "Template no encontrado para actualizar.") && table.rows == old(table.rows)
    ensures errors == [] && !old(NameTakenByOther(table.rows, name, id)) && id in old(table.rows) ==>
      && resp == Reply(200, "Template actualizado exitosamente.")
      && table.rows == Renamed(old(table.rows), id, name, htmlContent)
    ensures errors == [] && id in old(table.rows) && name == old(table.rows)[id].name ==> resp.status == 200
  {
    if id in table.rows {
      NameTakenOfStored(table.rows, id);
    }
    if errors != [] {
      return ValidationFailed(errors);
    }
    var r := table.UpdateTemplate(id, name, htmlContent);
    if r.Fail? {
      ErrorReplyDuplicate();
      return ErrorReply(r.error);
    }
    if r.value == 0 {
      return Reply(404, "Template no encontrado para actualizar.");
    }
    resp := Reply(200, "Template actualizado exitosamente.");
  }

  /** deleteTemplate: 404 when no row was affected, otherwise 200; only that id is removed. */
  method DeleteTemplate(table: TemplateTable, id: TemplateId) returns (resp: Response)
    requires table.Valid()
    modifies table
    ensures table.Valid()
    ensures table.rows == old(table.rows) - {id}
    ensures id !in old(table.rows) ==> resp == Reply(404, "Template no encontrado para eliminar.")
    ensures id in old(table.rows) ==> resp == Reply(200, "Template eliminado exitosamente.")
  {
    var affected := table.DeleteTemplate(id);
    if affected == 0 {
      return Reply(404, "Template no encontrado para eliminar.");
    }
    resp := Reply(200, "Template eliminado exitosamente.");
  }
}
