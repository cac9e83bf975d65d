/**
 * The `checkLock` gate (backend/middleware/lockMiddleware.js), run before saving an email: it reads
 * the lock columns and, when someone else holds the lock, the holder's username. It writes nothing.
 */
module LockMiddleware {
  import opened Js
  import opened Http
  import opened EmailService

  const HolderFallback := "otro usuario"
  const CheckFailed := "Error al verificar el bloqueo."

  /** `SELECT username FROM users WHERE id = ?` for the holder: the name found, else 'otro usuario'. */
  function HolderName(users: map<UserId, string>, holder: Option<UserId>): (name: string)
    ensures holder.Some? && holder.value in users ==> name == users[holder.value]
    ensures !(holder.Some? && holder.value in users) ==> name == HolderFallback
  {
    match UserName(users, holder)
    case Some(name) => name
    case None => HolderFallback
  }

  function EditedBy(name: string): string
  {
    "Este correo está siendo editado por " + name + "."
  }

  /**
   * checkLock over the answers of its two queries: 500 when a query throws; 404 for a missing
   * email; 409 naming the holder when another user holds the lock; otherwise `next()`.
   */
  function CheckLock(lockQuery: Query<Option<LockStatus>>, usersQuery: Query<map<UserId, string>>, currentUserId: UserId): (g: Gate)
    ensures lockQuery.StorageError? ==> g == Halt(Reply(500, CheckFailed))
    ensures lockQuery == Rows(None) ==> g == Halt(Reply(404, "Correo no encontrado."))
    ensures lockQuery.Rows? && lockQuery.value.Some? ==>
      (g.Next? <==> !HeldByOther(lockQuery.value.value, currentUserId))
    ensures lockQuery.Rows? && lockQuery.value.Some? && HeldByOther(lockQuery.value.value, currentUserId) ==>
      g == (if usersQuery.Rows? then Halt(Reply(409, EditedBy(HolderName(usersQuery.value, lockQuery.value.value.lockedBy))))
            else Halt(Reply(500, CheckFailed)))
  {
    match lockQuery
    case StorageError => Halt(Reply(500, CheckFailed))
    case Rows(None) => Halt(Reply(404, "Correo no encontrado."))
    case Rows(Some(email)) =>
      if HeldByOther(email, currentUserId) then
        match usersQuery
        case StorageError => Halt(Reply(500, CheckFailed))
        case Rows(users) => Halt(Reply(409, EditedBy(HolderName(users, email.lockedBy))))
      else Next
  }

  /** Over the emails table: the gate passes exactly for an existing email that is unlocked or held by the caller. */
  lemma CheckLockOverTable(rows: map<Uuid, EmailRow>, users: map<UserId, string>, uuid: Uuid, currentUserId: UserId)
    requires AllLockConsistent(rows)
    ensures CheckLock(Rows(StatusOf(rows, uuid)), Rows(users), currentUserId).Next? <==>
      uuid in rows && (rows[uuid].lockedBy == None || rows[uuid].lockedBy == Some(currentUserId))
    ensures uuid in rows && rows[uuid].isLocked && rows[uuid].lockedBy.value != currentUserId ==>
      var holder := rows[uuid].lockedBy.value;
      CheckLock(Rows(StatusOf(rows, uuid)), Rows(users), currentUserId)
        == Halt(Reply(409, EditedBy(if holder in users then users[holder] else HolderFallback)))
  {
  }
}
