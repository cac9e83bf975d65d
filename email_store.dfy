/**
 * The email list held by the client (frontend/src/stores/emailStore.js): the `emails`, `loading`
 * and `error` refs and the local effects of fetching, creating, deleting and force-unlocking.
 * Each awaited request is an input saying how it ended.
 */
module EmailStore {
  import opened Js
  import opened Http

  const FetchFailed := "No se pudo cargar la lista de correos. Asegúrate de que el backend está funcionando."

  /** `email.uuid === uuid` */
  predicate HasUuid(email: Json, uuid: string)
  {
    Member(email, "uuid") == Some(JStr(uuid))
  }

  /** `emails.filter(email => email.uuid !== uuid)` */
  function Without(emails: seq<Json>, uuid: string): (r: seq<Json>)
    ensures |r| <= |emails|
    ensures forall i :: 0 <= i < |r| ==> !HasUuid(r[i], uuid)
    ensures forall e :: e in r ==> e in emails
    ensures forall e :: e in emails && !HasUuid(e, uuid) ==> e in r
  {
    if emails == [] then []
    else if HasUuid(emails[0], uuid) then Without(emails[1..], uuid)
    else [emails[0]] + Without(emails[1..], uuid)
  }

  /** Filtering a concatenation filters each part, so the kept entries stay in their order. */
  lemma {:induction false} WithoutAppend(a: seq<Json>, b: seq<Json>, uuid: string)
    ensures Without(a + b, uuid) == Without(a, uuid) + Without(b, uuid)
    decreases |a|
  {
    if a == [] {
      assert a + b == b;
    } else {
      assert (a + b)[1..] == a[1..] + b;
      WithoutAppend(a[1..], b, uuid);
    }
  }

  /** A list without that uuid is left as it is. */
  lemma {:induction false} WithoutAbsent(emails: seq<Json>, uuid: string)
    requires forall i :: 0 <= i < |emails| ==> !HasUuid(emails[i], uuid)
    ensures Without(emails, uuid) == emails
    decreases |emails|
  {
    if emails != [] {
      WithoutAbsent(emails[1..], uuid);
    }
  }

  /** `emails.find(e => e.uuid === uuid)`, as the index of the entry found. */
  function FirstWithUuid(emails: seq<Json>, uuid: string): (r: Option<nat>)
    ensures r.Some? ==> r.value < |emails| && HasUuid(emails[r.value], uuid)
    ensures r.Some? ==> forall j :: 0 <= j < r.value ==> !HasUuid(emails[j], uuid)
    ensures r.None? ==> forall j :: 0 <= j < |emails| ==> !HasUuid(emails[j], uuid)
  {
    if emails == [] then None
    else if HasUuid(emails[0], uuid) then Some(0)
    else
      var rest := FirstWithUuid(emails[1..], uuid);
      assert forall j :: 1 <= j < |emails| ==> emails[j] == emails[1..][j - 1];
      if rest.None? then None else Some(rest.value + 1)
  }

  /** Property assignment `obj[key] = value`: an existing field keeps its place, a new one goes last. */
  function Assigned(fields: seq<Field>, key: string, value: Json): (r: seq<Field>)
    ensures Lookup(r, key) == Some(value)
    ensures forall k :: k != key ==> Lookup(r, k) == Lookup(fields, k)
  {
    if fields == [] then [Field(key, value)]
    else if fields[0].key == key then [Field(key, value)] + fields[1..]
    else [fields[0]] + Assigned(fields[1..], key, value)
  }

  /** `email.is_locked = false` on a listed email. */
  function Unlocked(email: Json): (r: Json)
    requires email.JObj?
    ensures Member(r, "is_locked") == Some(JBool(false))
    ensures forall k :: k != "is_locked" ==> Member(r, k) == Member(email, k)
  {
    JObj(Assigned(email.fields, "is_locked", JBool(false)))
  }

  /**
   * The list after a successful forceUnlock: the first entry with that uuid now reads
   * `is_locked: false`, keeping all its other members; every other entry is the same; with no
   * entry for the uuid the list is untouched.
   */
  function ForceUnlocked(emails: seq<Json>, uuid: string): (r: seq<Json>)
    ensures |r| == |emails|
    ensures FirstWithUuid(emails, uuid).None? ==> r == emails
    ensures FirstWithUuid(emails, uuid).Some? ==>
      var i := FirstWithUuid(emails, uuid).value;
      && Member(r[i], "is_locked") == Some(JBool(false))
      && (forall k :: k != "is_locked" ==> Member(r[i], k) == Member(emails[i], k))
      && (forall j :: 0 <= j < |emails| && j != i ==> r[j] == emails[j])
  {
    match FirstWithUuid(emails, uuid)
    case None => emails
    case Some(i) => emails[i := Unlocked(emails[i])]
  }

  /** Only the first of two entries sharing a uuid is marked unlocked. */
  lemma ForceUnlockTouchesFirstOnly(a: Json, b: Json, uuid: string)
    requires HasUuid(a, uuid) && HasUuid(b, uuid)
    ensures ForceUnlocked([a, b], uuid)[1] == b
    ensures ForceUnlocked([a, b], uuid)[0] == Unlocked(a)
  {
  }

  /** `{ success, message }` as returned by deleteEmail and forceUnlock. */
  datatype Feedback = Feedback(success: bool, message: Json)

  /** `err.response?.data?.message || fallback` */
  function ServerMessage(response: Option<Response>, fallback: string): (m: Json)
    ensures response.Some? && Truthy(Member(response.value.body, "message")) ==> Some(m) == Member(response.value.body, "message")
    ensures !(response.Some? && Truthy(Member(response.value.body, "message"))) ==> m == JStr(fallback)
  {
    if response.Some? && Truthy(Member(response.value.body, "message")) then Member(response.value.body, "message").value
    else JStr(fallback)
  }

  /** `{ success: true, uuid }` or `{ success: false, message }` as returned by createEmail. */
  datatype Created = CreatedOk(uuid: Option<Json>) | CreateFailed(message: Json)

  /**
   * createEmail: the new email's uuid from the reply, or the server's message (falling back to a
   * default) when the request failed; a `null` reply body throws a TypeError with no server reply.
   */
  function CreateEmailResult(created: Axios<Json>): (r: Created)
    ensures r.CreatedOk? <==> created.Succeeded? && created.data != JNull
    ensures r.CreatedOk? ==> r.uuid == Member(created.data, "uuid")
    ensures created.Failed? ==> r == CreateFailed(ServerMessage(created.response, "Error al crear el correo."))
    ensures created == Succeeded(JNull) ==> r == CreateFailed(JStr("Error al crear el correo."))
  {
    match created
    case Succeeded(data) =>
      if data == JNull then CreateFailed(ServerMessage(None, "Error al crear el correo."))
      else CreatedOk(Member(data, "uuid"))
    case Failed(response) => CreateFailed(ServerMessage(response, "Error al crear el correo."))
  }

  class EmailStore {
    var emails: seq<Json>
    var loading: bool
    var error: Option<string>

    constructor ()
      ensures emails == [] && !loading && error == None
    {
      emails, loading, error := [], false, None;
    }

    /** fetchEmails: the list is replaced on success; on failure `error` is set and the list kept. */
    method FetchEmails(fetched: Axios<seq<Json>>)
      modifies this
      ensures !loading
      ensures fetched.Succeeded? ==> emails == fetched.data && error == None
      ensures fetched.Failed? ==> emails == old(emails) && error == Some(FetchFailed)
    {
      loading := true;
      error := None;
      if fetched.Succeeded? {
        emails := fetched.data;
      } else {
        error := Some(FetchFailed);
      }
      loading := false;
    }

    /** deleteEmail: on success every entry with that uuid leaves the list; on failure nothing changes. */
    method DeleteEmail(uuid: string, deleted: Axios<Json>) returns (result: Feedback)
      modifies this
      ensures loading == old(loading) && error == old(error)
      ensures deleted.Succeeded? ==> emails == Without(old(emails), uuid) && result == Feedback(true, JStr("Correo eliminado exitosamente."))
      ensures deleted.Failed? ==>
        emails == old(emails) && result == Feedback(false, ServerMessage(deleted.response, "Error al eliminar el correo."))
    {
      if deleted.Failed? {
        return Feedback(false, ServerMessage(deleted.response, "Error al eliminar el correo."));
      }
      emails := Without(emails, uuid);
      result := Feedback(true, JStr("Correo eliminado exitosamente."));
    }

    /** forceUnlock: on success the first entry with that uuid is marked unlocked; on failure nothing changes. */
    method ForceUnlock(uuid: string, unlocked: Axios<Json>) returns (result: Feedback)
      modifies this
      ensures loading == old(loading) && error == old(error)
      ensures unlocked.Succeeded? ==> emails == ForceUnlocked(old(emails), uuid) && result == Feedback(true, JStr("Correo desbloqueado exitosamente."))
      ensures unlocked.Failed? ==> emails == old(emails) && result == Feedback(false, JStr("No se pudo forzar el desbloqueo."))
    {
      if unlocked.Failed? {
        return Feedback(false, JStr("No se pudo forzar el desbloqueo."));
      }
      var found := FirstWithUuid(emails, uuid);
      if found.Some? {
        emails := emails[found.value := Unlocked(emails[found.value])];
      }
      result := Feedback(true, JStr("Correo desbloqueado exitosamente."));
    }
  }
}
