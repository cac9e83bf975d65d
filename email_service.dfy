/**
 * The `emails_editable` table and the service operations on it (backend/services/emailService.js).
 * A row holds the stored content, its creator and last modifier, and the edit lock:
 * `is_locked` together with `locked_by_user_id`. The table keeps the two lock columns in step:
 * a row is locked exactly when it names a holder.
 */
module EmailService {
  import opened Js
  import opened TemplateService

  type Uuid = string
  type UserId = int

  datatype EmailRow = EmailRow(
    templateId: Json,              // `template_id` exactly as it came in the request body
    content: Json,                 // `content_json`
    userId: UserId,                // the creator
    isLocked: bool,
    lockedBy: Option<UserId>,      // NULL is None
    lastModifiedBy: Option<UserId>,
    createdAt: int,
    updatedAt: int)

  /** The two columns read by `SELECT is_locked, locked_by_user_id`. */
  datatype LockStatus = LockStatus(isLocked: bool, lockedBy: Option<UserId>)

  /** The row that `createEmail` inserts: locked by its creator, never modified yet. */
  function NewRow(templateId: Json, content: Json, userId: UserId, now: int): (r: EmailRow)
    ensures r.isLocked && r.lockedBy == Some(userId)
    ensures r.content == content && r.templateId == templateId && r.userId == userId
    ensures r.lastModifiedBy == None && r.createdAt == now && r.updatedAt == now
  {
    EmailRow(templateId, content, userId, true, Some(userId), None, now, now)
  }

  /** is_locked = 0 exactly when locked_by_user_id is NULL. */
  predicate LockConsistent(r: EmailRow)
  {
    r.isLocked <==> r.lockedBy.Some?
  }

  predicate AllLockConsistent(rows: map<Uuid, EmailRow>)
  {
    forall u :: u in rows ==> LockConsistent(rows[u])
  }

  // ---------------------------------------------------------------------------
  // The effect of each statement on the table
  // ---------------------------------------------------------------------------

  /** `SELECT is_locked, locked_by_user_id FROM emails_editable WHERE uuid = ?`, `rows[0]`. */
  function StatusOf(rows: map<Uuid, EmailRow>, uuid: Uuid): (s: Option<LockStatus>)
    ensures s.Some? <==> uuid in rows
    ensures uuid in rows ==> s.value.isLocked == rows[uuid].isLocked && s.value.lockedBy == rows[uuid].lockedBy
  {
    if uuid in rows then Some(LockStatus(rows[uuid].isLocked, rows[uuid].lockedBy)) else None
  }

  /** `UPDATE ... SET is_locked = 1, locked_by_user_id = ? WHERE uuid = ?` */
  function Locked(rows: map<Uuid, EmailRow>, uuid: Uuid, userId: UserId): (r: map<Uuid, EmailRow>)
    ensures r.Keys == rows.Keys
    ensures uuid in rows ==> r[uuid] == rows[uuid].(isLocked := true, lockedBy := Some(userId))
    ensures forall u :: u in rows && u != uuid ==> r[u] == rows[u]
  {
    if uuid in rows then rows[uuid := rows[uuid].(isLocked := true, lockedBy := Some(userId))] else rows
  }

  /** `UPDATE ... SET is_locked = 0, locked_by_user_id = NULL WHERE uuid = ?` */
  function Unlocked(rows: map<Uuid, EmailRow>, uuid: Uuid): (r: map<Uuid, EmailRow>)
    ensures r.Keys == rows.Keys
    ensures uuid in rows ==> r[uuid] == rows[uuid].(isLocked := false, lockedBy := None)
    ensures forall u :: u in rows && u != uuid ==> r[u] == rows[u]
  {
    if uuid in rows then rows[uuid := rows[uuid].(isLocked := false, lockedBy := None)] else rows
  }

  /** `UPDATE ... SET content_json = ?, last_modified_by = ?, updated_at = CURRENT_TIMESTAMP WHERE uuid = ?` */
  function ContentUpdated(rows: map<Uuid, EmailRow>, uuid: Uuid, content: Json, userId: UserId, now: int): (r: map<Uuid, EmailRow>)
    ensures r.Keys == rows.Keys
    ensures uuid in rows ==> r[uuid] == rows[uuid].(content := content, lastModifiedBy := Some(userId), updatedAt := now)
    ensures forall u :: u in rows && u != uuid ==> r[u] == rows[u]
  {
    if uuid in rows then rows[uuid := rows[uuid].(content := content, lastModifiedBy := Some(userId), updatedAt := now)]
    else rows
  }

  // ---------------------------------------------------------------------------
  // The lock invariant and the lock protocol
  // ---------------------------------------------------------------------------

  /** `email.is_locked && email.locked_by_user_id !== currentUserId`: someone else holds the lock. */
  predicate HeldByOther(s: LockStatus, userId: UserId)
  {
    s.isLocked && s.lockedBy != Some(userId)
  }

  /** Every statement of the service keeps "unlocked exactly when there is no holder". */
  lemma StatementsKeepLockConsistent(rows: map<Uuid, EmailRow>, uuid: Uuid, userId: UserId, templateId: Json, content: Json, now: int)
    requires AllLockConsistent(rows)
    ensures AllLockConsistent(rows[uuid := NewRow(templateId, content, userId, now)])
    ensures AllLockConsistent(Locked(rows, uuid, userId))
    ensures AllLockConsistent(Unlocked(rows, uuid))
    ensures AllLockConsistent(ContentUpdated(rows, uuid, content, userId, now))
    ensures AllLockConsistent(rows - {uuid})
  {
  }

  /** Unlocking twice is unlocking once. */
  lemma UnlockIdempotent(rows: map<Uuid, EmailRow>, uuid: Uuid)
    ensures Unlocked(Unlocked(rows, uuid), uuid) == Unlocked(rows, uuid)
  {
  }

  /** Locking again for the same user changes nothing, and a consistent row held by that user is already in that state. */
  lemma LockIdempotent(rows: map<Uuid, EmailRow>, uuid: Uuid, userId: UserId)
    ensures Locked(Locked(rows, uuid, userId), uuid, userId) == Locked(rows, uuid, userId)
    ensures uuid in rows && rows[uuid].isLocked && rows[uuid].lockedBy == Some(userId) ==>
      Locked(rows, uuid, userId) == rows
  {
    if uuid in rows && rows[uuid].isLocked && rows[uuid].lockedBy == Some(userId) {
      assert rows[uuid].(isLocked := true, lockedBy := Some(userId)) == rows[uuid];
    }
  }

  /** Neither locking nor unlocking touches the content or its authorship. */
  lemma LockingKeepsContent(rows: map<Uuid, EmailRow>, uuid: Uuid, userId: UserId)
    requires uuid in rows
    ensures var r := Locked(rows, uuid, userId)[uuid];
      r.content == rows[uuid].content && r.userId == rows[uuid].userId
      && r.lastModifiedBy == rows[uuid].lastModifiedBy && r.updatedAt == rows[uuid].updatedAt
    ensures var r := Unlocked(rows, uuid)[uuid];
      r.content == rows[uuid].content && r.userId == rows[uuid].userId
      && r.lastModifiedBy == rows[uuid].lastModifiedBy && r.updatedAt == rows[uuid].updatedAt
  {
  }

  /** Saving content does not check or change the lock. */
  lemma SavingKeepsLock(rows: map<Uuid, EmailRow>, uuid: Uuid, content: Json, userId: UserId, now: int)
    ensures StatusOf(ContentUpdated(rows, uuid, content, userId, now), uuid) == StatusOf(rows, uuid)
  {
  }

  // ---------------------------------------------------------------------------
  // Reads joined with the templates and users tables
  // ---------------------------------------------------------------------------

  /**
   * The template that `e.template_id = t.id` joins with: a numeric id, or a string of decimal digits,
   * which MySQL compares as the number it spells.
   */
  function TemplateOf(templateId: Json, templates: map<TemplateId, Template>): (t: Option<Template>)
    ensures templateId.JNum? ==> t == (if templateId.n in templates then Some(templates[templateId.n]) else None)
    ensures !templateId.JNum? && !templateId.JStr? ==> t == None
  {
    match templateId
    case JNum(n) => if n in templates then Some(templates[n]) else None
    case JStr(s) =>
      (match DigitsValue(s)
       case Some(n) => if n in templates then Some(templates[n]) else None
       case None => None)
    case _ => None
  }

  /** An id sent as its decimal string joins with the same template as the number. */
  lemma TemplateOfDecimalString(id: nat, templates: map<TemplateId, Template>)
    ensures TemplateOf(JStr(NatToString(id)), templates) == TemplateOf(JNum(id), templates)
  {
    DigitsValueOfNatToString(id);
  }

  /** `LEFT JOIN users u ON ... = u.id`: the username, or NULL. */
  function UserName(users: map<UserId, string>, id: Option<UserId>): (name: Option<string>)
    ensures name.Some? <==> id.Some? && id.value in users
    ensures name.Some? ==> name.value == users[id.value]
  {
    if id.Some? && id.value in users then Some(users[id.value]) else None
  }

  /** One row of getEmailByUuid: template_id, template_name, content_json, is_locked, locked_by_user_id. */
  datatype EmailView = EmailView(templateId: Json, templateName: string, content: Json, isLocked: bool, lockedBy: Option<UserId>)

  /** One row of getAllEmails. */
  datatype EmailSummary = EmailSummary(
    uuid: Uuid, templateId: Json, templateName: Option<string>, createdAt: int, updatedAt: int,
    creatorUsername: Option<string>, lastModifierUsername: Option<string>)

  function SummaryOf(uuid: Uuid, r: EmailRow, templates: map<TemplateId, Template>, users: map<UserId, string>): (s: EmailSummary)
    ensures s.uuid == uuid && s.templateId == r.templateId && s.updatedAt == r.updatedAt && s.createdAt == r.createdAt
    ensures s.templateName == (if TemplateOf(r.templateId, templates).Some? then Some(TemplateOf(r.templateId, templates).value.name) else None)
    ensures s.creatorUsername == UserName(users, Some(r.userId))
    ensures s.lastModifierUsername == UserName(users, r.lastModifiedBy)
  {
    var t := TemplateOf(r.templateId, templates);
    EmailSummary(uuid, r.templateId, if t.Some? then Some(t.value.name) else None, r.createdAt, r.updatedAt,
      UserName(users, Some(r.userId)), UserName(users, r.lastModifiedBy))
  }

  /** Each entry of `list` summarises a row of `done`. */
  ghost predicate Summarises(rows: map<Uuid, EmailRow>, templates: map<TemplateId, Template>, users: map<UserId, string>,
    list: seq<EmailSummary>, done: set<Uuid>)
  {
    forall i :: 0 <= i < |list| ==>
      (list[i].uuid in done && list[i].uuid in rows && list[i] == SummaryOf(list[i].uuid, rows[list[i].uuid], templates, users))
  }

  /** No row is listed twice. */
  ghost predicate DistinctUuids(list: seq<EmailSummary>)
  {
    forall i, j :: 0 <= i < j < |list| ==> list[i].uuid != list[j].uuid
  }

  /** Every row of `done` is listed. */
  ghost predicate Lists(list: seq<EmailSummary>, done: set<Uuid>)
  {
    forall u :: u in done ==> exists i :: 0 <= i < |list| && list[i].uuid == u
  }

  /** `list` holds one summary per row of `done`, each once. */
  ghost predicate CoversRows(rows: map<Uuid, EmailRow>, templates: map<TemplateId, Template>, users: map<UserId, string>,
    list: seq<EmailSummary>, done: set<Uuid>)
  {
    Summarises(rows, templates, users, list, done) && DistinctUuids(list) && Lists(list, done)
  }

  /** `ORDER BY e.updated_at DESC` */
  ghost predicate NewestFirst(list: seq<EmailSummary>)
  {
    forall i, j :: 0 <= i < j < |list| ==> list[i].updatedAt >= list[j].updatedAt
  }

  /** The result of getAllEmails: every row once, newest update first. */
  ghost predicate IsListing(rows: map<Uuid, EmailRow>, templates: map<TemplateId, Template>, users: map<UserId, string>,
    list: seq<EmailSummary>)
  {
    CoversRows(rows, templates, users, list, rows.Keys) && NewestFirst(list)
  }

  /** Nothing listed is older than a row not yet listed. */
  ghost predicate NoneNewerLeft(rows: map<Uuid, EmailRow>, list: seq<EmailSummary>, done: set<Uuid>)
  {
    forall i, u :: 0 <= i < |list| && u in rows && u !in done ==> list[i].updatedAt >= rows[u].updatedAt
  }

  /** The state of the ordering loop: `done` is listed, newest first, and nothing left is newer. */
  ghost predicate ListingLoop(rows: map<Uuid, EmailRow>, templates: map<TemplateId, Template>, users: map<UserId, string>,
    list: seq<EmailSummary>, done: set<Uuid>)
  {
    && done <= rows.Keys
    && CoversRows(rows, templates, users, list, done)
    && NewestFirst(list)
    && NoneNewerLeft(rows, list, done)
  }

  lemma NewestExists(rows: map<Uuid, EmailRow>, left: set<Uuid>)
    requires left != {} && left <= rows.Keys
    ensures exists u :: u in left && forall v :: v in left ==> rows[v].updatedAt <= rows[u].updatedAt
    decreases left
  {
    var x :| x in left;
    if left != {x} {
      var rest := left - {x};
      NewestExists(rows, rest);
      var y :| y in rest && forall v :: v in rest ==> rows[v].updatedAt <= rows[y].updatedAt;
      if rows[x].updatedAt > rows[y].updatedAt {
        assert forall v :: v in left ==> rows[v].updatedAt <= rows[x].updatedAt;
      } else {
        assert forall v :: v in left ==> rows[v].updatedAt <= rows[y].updatedAt;
      }
    } else {
      assert forall v :: v in left ==> v == x;
    }
  }

  lemma SummarisesStep(rows: map<Uuid, EmailRow>, templates: map<TemplateId, Template>, users: map<UserId, string>,
    list: seq<EmailSummary>, done: set<Uuid>, u: Uuid)
    requires Summarises(rows, templates, users, list, done) && u in rows
    ensures Summarises(rows, templates, users, list + [SummaryOf(u, rows[u], templates, users)], done + {u})
  {
    var l := list + [SummaryOf(u, rows[u], templates, users)];
    assert forall i :: 0 <= i < |list| ==> l[i] == list[i];
  }

  lemma DistinctStep(rows: map<Uuid, EmailRow>, templates: map<TemplateId, Template>, users: map<UserId, string>,
    list: seq<EmailSummary>, done: set<Uuid>, u: Uuid)
    requires Summarises(rows, templates, users, list, done) && DistinctUuids(list) && u in rows && u !in done
    ensures DistinctUuids(list + [SummaryOf(u, rows[u], templates, users)])
  {
    var l := list + [SummaryOf(u, rows[u], templates, users)];
    assert forall i :: 0 <= i < |list| ==> l[i] == list[i];
  }

  lemma ListsStep(list: seq<EmailSummary>, done: set<Uuid>, s: EmailSummary)
    requires Lists(list, done)
    ensures Lists(list + [s], done + {s.uuid})
  {
    var l := list + [s];
    forall w | w in done + {s.uuid} ensures exists i :: 0 <= i < |l| && l[i].uuid == w {
      if w == s.uuid {
        assert l[|list|].uuid == w;
      } else {
        var i :| 0 <= i < |list| && list[i].uuid == w;
        assert l[i].uuid == w;
      }
    }
  }

  lemma OrderStep(rows: map<Uuid, EmailRow>, list: seq<EmailSummary>, done: set<Uuid>, u: Uuid, s: EmailSummary)
    requires NewestFirst(list) && NoneNewerLeft(rows, list, done)
    requires u in rows && u !in done && s.updatedAt == rows[u].updatedAt
    requires forall v :: v in rows && v !in done ==> rows[v].updatedAt <= rows[u].updatedAt
    ensures NewestFirst(list + [s]) && NoneNewerLeft(rows, list + [s], done + {u})
  {
    var l := list + [s];
    assert forall i :: 0 <= i < |list| ==> l[i] == list[i];
  }

  lemma ListingStep(rows: map<Uuid, EmailRow>, templates: map<TemplateId, Template>, users: map<UserId, string>,
    list: seq<EmailSummary>, done: set<Uuid>, u: Uuid)
    requires ListingLoop(rows, templates, users, list, done)
    requires u in rows && u !in done
    requires forall v :: v in rows && v !in done ==> rows[v].updatedAt <= rows[u].updatedAt
    ensures ListingLoop(rows, templates, users, list + [SummaryOf(u, rows[u], templates, users)], done + {u})
  {
    var s := SummaryOf(u, rows[u], templates, users);
    SummarisesStep(rows, templates, users, list, done, u);
    DistinctStep(rows, templates, users, list, done, u);
    ListsStep(list, done, s);
    OrderStep(rows, list, done, u, s);
  }

  lemma ListingDone(rows: map<Uuid, EmailRow>, templates: map<TemplateId, Template>, users: map<UserId, string>,
    list: seq<EmailSummary>, done: set<Uuid>)
    requires ListingLoop(rows, templates, users, list, done) && rows.Keys - done == {}
    ensures IsListing(rows, templates, users, list)
  {
    forall u | u in rows.Keys ensures u in done {
      assert u !in rows.Keys - done;
    }
    assert done == rows.Keys;
  }

  class EmailTable {
    var rows: map<Uuid, EmailRow>

    ghost predicate Valid()
      reads this
    {
      AllLockConsistent(rows)
    }

    constructor ()
      ensures Valid() && rows == map[]
    {
      rows := map[];
    }

    /** getAllEmails: every row once, joined with its template name and usernames, newest update first. */
    method GetAllEmails(templates: map<TemplateId, Template>, users: map<UserId, string>) returns (list: seq<EmailSummary>)
      ensures IsListing(rows, templates, users, list)
    {
      list := [];
      var left := rows.Keys;
      while left != {}
        invariant left == rows.Keys - (rows.Keys - left)
        invariant left <= rows.Keys
        invariant ListingLoop(rows, templates, users, list, rows.Keys - left)
        decreases left
      {
        NewestExists(rows, left);
        var u :| u in left && forall v :: v in left ==> rows[v].updatedAt <= rows[u].updatedAt;
        ListingStep(rows, templates, users, list, rows.Keys - left, u);
        list := list + [SummaryOf(u, rows[u], templates, users)];
        assert (rows.Keys - left) + {u} == rows.Keys - (left - {u});
        left := left - {u};
      }
      ListingDone(rows, templates, users, list, rows.Keys - left);
    }

    /**
     * getEmailByUuid: the row joined with its template (an inner join, so an email whose template
     * is missing reads as absent); the content reads back as stored.
     */
    method GetEmailByUuid(uuid: Uuid, templates: map<TemplateId, Template>) returns (view: Option<EmailView>)
      ensures view.Some? <==> uuid in rows && TemplateOf(rows[uuid].templateId, templates).Some?
      ensures view.Some? ==>
        var r := rows[uuid];
        view.value == EmailView(r.templateId, TemplateOf(r.templateId, templates).value.name, r.content, r.isLocked, r.lockedBy)
    {
      if uuid !in rows {
        return None;
      }
      var r := rows[uuid];
      var t := TemplateOf(r.templateId, templates);
      if t.None? {
        return None;
      }
      view := Some(EmailView(r.templateId, t.value.name, r.content, r.isLocked, r.lockedBy));
    }

    /**
     * createEmail: inserts a row under the freshly generated `uuid`, locked by its creator, holding
     * the content given, and returns that uuid.
     */
    method CreateEmail(uuid: Uuid, templateId: Json, content: Json, userId: UserId, now: int) returns (created: Uuid)
      requires Valid()
      requires uuid !in rows
      modifies this
      ensures Valid()
      ensures created == uuid
      ensures rows == old(rows)[uuid := NewRow(templateId, content, userId, now)]
    {
      rows := rows[uuid := NewRow(templateId, content, userId, now)];
      created := uuid;
    }

    /** updateEmailContent: replaces content, modifier and update time, whatever the lock; 0 for a missing uuid. */
    method UpdateEmailContent(uuid: Uuid, content: Json, userId: UserId, now: int) returns (affected: nat)
      requires Valid()
      modifies this
      ensures Valid()
      ensures affected == (if uuid in old(rows) then 1 else 0)
      ensures rows == ContentUpdated(old(rows), uuid, content, userId, now)
    {
      affected := if uuid in rows then 1 else 0;
      rows := ContentUpdated(rows, uuid, content, userId, now);
    }

    /** deleteEmail: removes that row only; 1 if it existed, else 0. */
    method DeleteEmail(uuid: Uuid) returns (affected: nat)
      requires Valid()
      modifies this
      ensures Valid()
      ensures affected == (if uuid in old(rows) then 1 else 0)
      ensures rows == old(rows) - {uuid}
    {
      affected := if uuid in rows then 1 else 0;
      rows := rows - {uuid};
    }

    /** lockEmail: makes `userId` the holder, unconditionally. */
    method LockEmail(uuid: Uuid, userId: UserId)
      requires Valid()
      modifies this
      ensures Valid()
      ensures rows == Locked(old(rows), uuid, userId)
    {
      rows := Locked(rows, uuid, userId);
    }

    /** unlockEmail: clears the lock and its holder. */
    method UnlockEmail(uuid: Uuid)
      requires Valid()
      modifies this
      ensures Valid()
      ensures rows == Unlocked(old(rows), uuid)
    {
      rows := Unlocked(rows, uuid);
    }

    /** getEmailLockStatus: the two lock columns, or `undefined`. */
    method GetEmailLockStatus(uuid: Uuid) returns (status: Option<LockStatus>)
      ensures status == StatusOf(rows, uuid)
    {
      status := if uuid in rows then Some(LockStatus(rows[uuid].isLocked, rows[uuid].lockedBy)) else None;
    }
  }
}
