/**
 * The editor's client-side session (frontend/src/stores/editorStore.js): the refs `loading`,
 * `error`, `templateHtml`, `editableContent`, `templateName`, `isLocked`, `isSaving`,
 * `hasUnsavedChanges` and the `autoSaveStatus` badge, and the actions that update them.
 * Each awaited request is an input saying how it ended.
 */
module EditorStore {
  import opened Js
  import opened Http

  /** The `autoSaveStatus` object: its `text` and its css `class`. */
  datatype Badge = Badge(text: string, css: string)

  const Ready := Badge("Listo", "bg-secondary")
  const Saving := Badge("Guardando...", "bg-info")
  const Saved := Badge("Cambios guardados", "bg-success")
  const SaveFailed := Badge("Error al guardar", "bg-danger")

  const LoadFailed := "Error al cargar el correo."

  /** A snapshot of the store's fields; `None` stands for `undefined` where a field can receive it. */
  datatype EditorState = EditorState(
    loading: bool,
    error: Json,
    templateHtml: Option<Json>,
    editableContent: Option<Json>,
    templateName: Option<Json>,
    isLocked: bool,
    isSaving: bool,
    hasUnsavedChanges: bool,
    status: Badge)

  /** The values the refs are created with, and that resetEditorState restores. */
  const Initial := EditorState(true, JNull, Some(JStr("")), Some(JObj([])), Some(JStr("")), false, false, false, Ready)

  /** `{ success, isLockedError }` as returned by loadAndLockEmail; a missing `isLockedError` is false. */
  datatype LoadResult = LoadResult(success: bool, isLockedError: bool)

  /** `err.response?.data?.message || 'Error al cargar el correo.'` */
  function LoadError(response: Option<Response>): (e: Json)
    ensures Truthy(Some(e))
    ensures response.Some? && Truthy(Member(response.value.body, "message")) ==> Some(e) == Member(response.value.body, "message")
    ensures !(response.Some? && Truthy(Member(response.value.body, "message"))) ==> e == JStr(LoadFailed)
  {
    if response.Some? && Truthy(Member(response.value.body, "message")) then Member(response.value.body, "message").value
    else JStr(LoadFailed)
  }

  /** The catch and finally blocks of loadAndLockEmail, entered with the state reached so far. */
  function CaughtLoad(s: EditorState, response: Option<Response>): (r: (EditorState, LoadResult))
    ensures r.0 == s.(loading := false, error := LoadError(response))
    ensures r.1 == LoadResult(false, response.Some? && response.value.status == 409)
  {
    (s.(loading := false, error := LoadError(response)), LoadResult(false, response.Some? && response.value.status == 409))
  }

  /**
   * loadAndLockEmail: lock, then fetch the email, then its template, stopping at the first request
   * that throws (a `null` response body throws a TypeError without a server reply). `isLocked` is
   * set once the lock request succeeded and is kept whatever fails later; `loading` ends false.
   */
  function AfterLoad(s: EditorState, lock: Axios<Json>, email: Axios<Json>, template: Axios<Json>): (r: (EditorState, LoadResult))
    ensures !r.0.loading
    ensures r.0.isLocked == (lock.Succeeded? || s.isLocked)
    ensures r.0.isSaving == s.isSaving && r.0.hasUnsavedChanges == s.hasUnsavedChanges && r.0.status == s.status
    ensures r.1.success <==> lock.Succeeded? && email.Succeeded? && email.data != JNull && template.Succeeded? && template.data != JNull
    ensures r.1.isLockedError ==> !r.1.success
    ensures lock.Failed? ==> r == CaughtLoad(s.(loading := true, error := JNull), lock.response)
    ensures r.1.success ==>
      && r.0.error == JNull
      && r.0.editableContent == Member(email.data, "content_json")
      && r.0.templateName == Member(email.data, "template_name")
      && r.0.templateHtml == Member(template.data, "html_content")
    ensures !r.1.success ==> Truthy(Some(r.0.error))
  {
    var s1 := s.(loading := true, error := JNull);
    if lock.Failed? then CaughtLoad(s1, lock.response)
    else
      var s2 := s1.(isLocked := true);
      if email.Failed? then CaughtLoad(s2, email.response)
      else if email.data == JNull then CaughtLoad(s2, None)
      else
        var s3 := s2.(editableContent := Member(email.data, "content_json"), templateName := Member(email.data, "template_name"));
        if template.Failed? then CaughtLoad(s3, template.response)
        else if template.data == JNull then CaughtLoad(s3, None)
        else (s3.(templateHtml := Member(template.data, "html_content"), loading := false), LoadResult(true, false))
  }

  /** A 409 from the lock request is reported as a lock conflict; any other failure is not. */
  lemma LoadConflictIffLockRefused(s: EditorState, lock: Axios<Json>, email: Axios<Json>, template: Axios<Json>)
    requires lock.Failed?
    ensures AfterLoad(s, lock, email, template).1.isLockedError <==> lock.response.Some? && lock.response.value.status == 409
    ensures !s.isLocked ==> !AfterLoad(s, lock, email, template).0.isLocked
  {
  }

  /** A failure after the lock was taken leaves the lock held. */
  lemma LockKeptOnLaterFailure(s: EditorState, email: Axios<Json>, template: Axios<Json>, lockData: Json)
    requires email.Failed? || template.Failed?
    ensures AfterLoad(s, Succeeded(lockData), email, template).0.isLocked
    ensures !AfterLoad(s, Succeeded(lockData), email, template).1.success
  {
  }

  /** `{ updated_content: editableContent.value }` as sent; an `undefined` content is dropped from the JSON. */
  function SaveBody(content: Option<Json>): (b: Json)
    ensures Member(b, "updated_content") == content
  {
    if content.Some? then JObj([Field("updated_content", content.value)]) else JObj([])
  }

  /**
   * The synchronous start of saveEmail: while a save is in flight nothing is sent and nothing
   * changes; otherwise `isSaving` is raised, the badge reads 'Guardando...', and the whole
   * editable content is sent.
   */
  function StartedSave(s: EditorState): (r: (EditorState, Option<Json>))
    ensures s.isSaving ==> r == (s, None)
    ensures !s.isSaving ==> r.1 == Some(SaveBody(s.editableContent))
    ensures !s.isSaving ==> r.0.isSaving && r.0.status == Saving && r.0.(isSaving := false, status := s.status) == s
  {
    if s.isSaving then (s, None) else (s.(isSaving := true, status := Saving), Some(SaveBody(s.editableContent)))
  }

  /**
   * The end of saveEmail once the PUT settled: success clears `hasUnsavedChanges` and shows
   * 'Cambios guardados'; failure shows 'Error al guardar' and keeps `hasUnsavedChanges`. `isSaving`
   * is false either way, and the result is whether it succeeded.
   */
  function FinishedSave(s: EditorState, succeeded: bool): (r: (EditorState, bool))
    ensures !r.0.isSaving && r.1 == succeeded
    ensures succeeded ==> !r.0.hasUnsavedChanges && r.0.status == Saved
    ensures !succeeded ==> r.0.hasUnsavedChanges == s.hasUnsavedChanges && r.0.status == SaveFailed
    ensures r.0.(isSaving := s.isSaving, hasUnsavedChanges := s.hasUnsavedChanges, status := s.status) == s
  {
    if succeeded then (s.(hasUnsavedChanges := false, status := Saved, isSaving := false), true)
    else (s.(status := SaveFailed, isSaving := false), false)
  }

  /** A second save started while the first is awaited sends nothing and returns false. */
  lemma OneSaveAtATime(s: EditorState)
    requires !s.isSaving
    ensures StartedSave(StartedSave(s).0) == (StartedSave(s).0, None)
  {
  }

  /**
   * unlockEmail: nothing is sent while not locked; otherwise the unlock request is sent and
   * `isLocked` is cleared only if it succeeded. No other field changes.
   */
  function AfterUnlock(s: EditorState, unlocked: bool): (r: (EditorState, bool))
    ensures r.1 <==> s.isLocked
    ensures r.0.isLocked <==> s.isLocked && !unlocked
    ensures r.0.(isLocked := s.isLocked) == s
  {
    if !s.isLocked then (s, false) else (s.(isLocked := !unlocked), true)
  }

  /** A session that took the lock and later released it successfully no longer holds it. */
  lemma LoadThenUnlockReleases(s: EditorState, lockData: Json, email: Axios<Json>, template: Axios<Json>)
    ensures AfterUnlock(AfterLoad(s, Succeeded(lockData), email, template).0, true).1
    ensures !AfterUnlock(AfterLoad(s, Succeeded(lockData), email, template).0, true).0.isLocked
  {
  }

  class EditorStore {
    var loading: bool
    var error: Json
    var templateHtml: Option<Json>
    var editableContent: Option<Json>
    var templateName: Option<Json>
    var isLocked: bool
    var isSaving: bool
    var hasUnsavedChanges: bool
    var status: Badge

    function State(): EditorState
      reads this
    {
      EditorState(loading, error, templateHtml, editableContent, templateName, isLocked, isSaving, hasUnsavedChanges, status)
    }

    constructor ()
      ensures State() == Initial
    {
      loading, error := true, JNull;
      templateHtml, editableContent, templateName := Some(JStr("")), Some(JObj([])), Some(JStr(""));
      isLocked, isSaving, hasUnsavedChanges := false, false, false;
      status := Ready;
    }

    /** The `catch` and `finally` of loadAndLockEmail. */
    method CatchLoad(response: Option<Response>) returns (result: LoadResult)
      modifies this
      ensures (State(), result) == CaughtLoad(old(State()), response)
    {
      error := LoadError(response);
      loading := false;
      result := LoadResult(false, response.Some? && response.value.status == 409);
    }

    method LoadAndLockEmail(lock: Axios<Json>, email: Axios<Json>, template: Axios<Json>) returns (result: LoadResult)
      modifies this
      ensures (State(), result) == AfterLoad(old(State()), lock, email, template)
    {
      loading := true;
      error := JNull;
      if lock.Failed? {
        result := CatchLoad(lock.response);
        return;
      }
      isLocked := true;
      if email.Failed? {
        result := CatchLoad(email.response);
        return;
      }
      if email.data == JNull {
        result := CatchLoad(None);
        return;
      }
      editableContent := Member(email.data, "content_json");
      templateName := Member(email.data, "template_name");
      if template.Failed? {
        result := CatchLoad(template.response);
        return;
      }
      if template.data == JNull {
        result := CatchLoad(None);
        return;
      }
      templateHtml := Member(template.data, "html_content");
      loading := false;
      result := LoadResult(true, false);
    }

    /** saveEmail up to the awaited PUT: the body it sends, or None when it returned false at once. */
    method StartSave() returns (sent: Option<Json>)
      modifies this
      ensures (State(), sent) == StartedSave(old(State()))
    {
      if isSaving {
        return None;
      }
      isSaving := true;
      status := Saving;
      sent := Some(SaveBody(editableContent));
    }

    /** saveEmail after the PUT settled. */
    method FinishSave(succeeded: bool) returns (saved: bool)
      modifies this
      ensures (State(), saved) == FinishedSave(old(State()), succeeded)
    {
      if succeeded {
        hasUnsavedChanges := false;
        status := Saved;
        saved := true;
      } else {
        status := SaveFailed;
        saved := false;
      }
      isSaving := false;
    }

    /** saveEmail run to completion with no other action in between. */
    method SaveEmail(succeeded: bool) returns (saved: bool, sent: Option<Json>)
      modifies this
      ensures sent == StartedSave(old(State())).1
      ensures sent.None? ==> State() == old(State()) && !saved
      ensures sent.Some? ==> (State(), saved) == FinishedSave(StartedSave(old(State())).0, succeeded)
    {
      sent := StartSave();
      if sent.None? {
        return false, sent;
      }
      saved := FinishSave(succeeded);
    }

    method UnlockEmail(unlocked: bool) returns (sent: bool)
      modifies this
      ensures (State(), sent) == AfterUnlock(old(State()), unlocked)
    {
      if !isLocked {
        return false;
      }
      sent := true;
      if unlocked {
        isLocked := false;
      }
    }

    method ResetEditorState()
      modifies this
      ensures State() == Initial
    {
      loading := true;
      error := JNull;
      templateHtml := Some(JStr(""));
      editableContent := Some(JObj([]));
      templateName := Some(JStr(""));
      isLocked := false;
      isSaving := false;
      hasUnsavedChanges := false;
      status := Ready;
    }
  }
}
