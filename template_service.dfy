/**
 * The templates table and the service operations on it (backend/services/templateService.js).
 * Rows are keyed by their AUTO_INCREMENT id; the service keeps template names unique by looking
 * the name up before every insert and update.
 */
module TemplateService {
  import opened Js

  type TemplateId = int

  datatype Template = Template(name: string, htmlContent: string, userId: int)

  /** An `Error` thrown by the service; `statusCode` is the property set on it, if any. */
  datatype ServiceError = ServiceError(statusCode: Option<int>, message: string)

  datatype Result<+T> = Ok(value: T) | Fail(error: ServiceError)

  const DuplicateName := "Ya existe un template con este nombre."
  const DuplicateOtherName := "Ya existe otro template con este nombre."

  /** `SELECT id FROM templates WHERE name = ?` returns a row. */
  predicate NameTaken(rows: map<TemplateId, Template>, name: string)
  {
    exists id :: id in rows && rows[id].name == name
  }

  /** `SELECT id FROM templates WHERE name = ? AND id != ?` returns a row. */
  predicate NameTakenByOther(rows: map<TemplateId, Template>, name: string, id: TemplateId)
  {
    exists other :: other in rows && other != id && rows[other].name == name
  }

  /** No two templates share a name. */
  predicate NamesUnique(rows: map<TemplateId, Template>)
  {
    forall a, b :: a in rows && b in rows && rows[a].name == rows[b].name ==> a == b
  }

  /** The table after `UPDATE templates SET name = ?, html_content = ? WHERE id = ?`. */
  function Renamed(rows: map<TemplateId, Template>, id: TemplateId, name: string, htmlContent: string): (r: map<TemplateId, Template>)
    ensures r.Keys == rows.Keys
    ensures id in rows ==> r[id] == Template(name, htmlContent, rows[id].userId)
    ensures forall other :: other in rows && other != id ==> r[other] == rows[other]
  {
    if id in rows then rows[id := rows[id].(name := name, htmlContent := htmlContent)] else rows
  }

  /** Inserting a template whose name is not taken keeps names unique. */
  lemma {:induction false} InsertKeepsNamesUnique(rows: map<TemplateId, Template>, id: TemplateId, t: Template)
    requires NamesUnique(rows) && !NameTaken(rows, t.name)
    ensures NamesUnique(rows[id := t])
  {
    var r := rows[id := t];
    forall a, b | a in r && b in r && r[a].name == r[b].name ensures a == b {
      if a != id && b != id {
        assert rows[a].name == rows[b].name;
      }
    }
  }

  /** Renaming a template to a name no other template holds keeps names unique. */
  lemma {:induction false} RenameKeepsNamesUnique(rows: map<TemplateId, Template>, id: TemplateId, name: string, htmlContent: string)
    requires NamesUnique(rows) && !NameTakenByOther(rows, name, id)
    ensures NamesUnique(Renamed(rows, id, name, htmlContent))
  {
    var r := Renamed(rows, id, name, htmlContent);
    forall a, b | a in r && b in r && r[a].name == r[b].name ensures a == b {
      if a != id && b != id {
        assert rows[a].name == rows[b].name;
      }
    }
  }

  /** A template that exists holds its own name, so the create check then always fails. */
  lemma NameTakenOfStored(rows: map<TemplateId, Template>, id: TemplateId)
    requires id in rows
    ensures NameTaken(rows, rows[id].name)
    ensures NamesUnique(rows) ==> !NameTakenByOther(rows, rows[id].name, id)
  {
  }

  class TemplateTable {
    var rows: map<TemplateId, Template>
    /** The next AUTO_INCREMENT value. */
    var nextId: TemplateId

    ghost predicate Valid()
      reads this
    {
      && NamesUnique(rows)
      && (forall id :: id in rows ==> 0 < id < nextId)
      && 0 < nextId
    }

    constructor ()
      ensures Valid()
      ensures rows == map[] && nextId == 1
    {
      rows := map[];
      nextId := 1;
    }

    /** `SELECT html_content FROM templates WHERE id = ?`, `rows[0]`: the html, or `undefined`. */
    method GetTemplateById(id: TemplateId) returns (html: Option<string>)
      ensures html.Some? <==> id in rows
      ensures id in rows ==> html.value == rows[id].htmlContent
    {
      if id in rows {
        html := Some(rows[id].htmlContent);
      } else {
        html := None;
      }
    }

    /**
     * createTemplate: a name already in use throws a 409 error and inserts nothing; otherwise
     * exactly one row holding the given name, html and user is inserted under a new id.
     */
    method CreateTemplate(name: string, htmlContent: string, userId: int) returns (r: Result<TemplateId>)
      requires Valid()
      modifies this
      ensures Valid()
      ensures old(NameTaken(rows, name)) ==>
        r == Fail(ServiceError(Some(409), DuplicateName)) && rows == old(rows) && nextId == old(nextId)
      ensures !old(NameTaken(rows, name)) ==>
        && r == Ok(old(nextId))
        && old(nextId) !in old(rows)
        && rows == old(rows)[old(nextId) := Template(name, htmlContent, userId)]
        && nextId == old(nextId) + 1
    {
      if NameTaken(rows, name) {
        return Fail(ServiceError(Some(409), DuplicateName));
      }
      InsertKeepsNamesUnique(rows, nextId, Template(name, htmlContent, userId));
      rows := rows[nextId := Template(name, htmlContent, userId)];
      r := Ok(nextId);
      nextId := nextId + 1;
    }

    /**
     * updateTemplate: a name held by a different id throws a 409 error; keeping one's own name is
     * allowed. Otherwise name and html of that id are replaced and the matched-row count (1, or 0
     * for a missing id, which changes nothing) is returned.
     */
    method UpdateTemplate(id: TemplateId, name: string, htmlContent: string) returns (r: Result<nat>)
      requires Valid()
      modifies this
      ensures Valid()
      ensures nextId == old(nextId)
      ensures old(NameTakenByOther(rows, name, id)) ==>
        r == Fail(ServiceError(Some(409), DuplicateOtherName)) && rows == old(rows)
      ensures !old(NameTakenByOther(rows, name, id)) ==>
        && r == Ok(if id in old(rows) then 1 else 0)
        && rows == Renamed(old(rows), id, name, htmlContent)
    {
      if NameTakenByOther(rows, name, id) {
        return Fail(ServiceError(Some(409), DuplicateOtherName));
      }
      RenameKeepsNamesUnique(rows, id, name, htmlContent);
      var affected := if id in rows then 1 else 0;
      rows := Renamed(rows, id, name, htmlContent);
      r := Ok(affected);
    }

    /** deleteTemplate: removes that id only; 1 if it existed, else 0. */
    method DeleteTemplate(id: TemplateId) returns (affected: nat)
      requires Valid()
      modifies this
      ensures Valid()
      ensures nextId == old(nextId)
      ensures affected == (if id in old(rows) then 1 else 0)
      ensures rows == old(rows) - {id}
    {
      affected := if id in rows then 1 else 0;
      rows := rows - {id};
    }
  }
}
