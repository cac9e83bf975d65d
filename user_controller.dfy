/**
 * The user-management handlers (backend/controllers/userController.js): their input checks and how
 * they map the service's answers to replies. The service calls are inputs: what the lookup found,
 * and whether the write went through or threw.
 */
module UserController {
  import opened Js
  import opened Http

  /**
   * `v.length < n` in JavaScript: the length of a string in UTF-16 code units, the length of an
   * array, or an object's own `length`
   * member converted to a number (a NaN compares false); any other value has no length, and
   * `undefined < n` is false.
   */
  predicate ShorterThan(v: Option<Json>, n: int)
  {
    match v
    case Some(JStr(s)) => Utf16Length(s) < n
    case Some(JArr(items)) => |items| < n
    case Some(JObj(fields)) =>
      Lookup(fields, "length").Some? && ToNumber(Lookup(fields, "length").value).Some?
      && ToNumber(Lookup(fields, "length").value).value < n
    case _ => false
  }

  /**
   * A password object whose `length` member is a short numeral string, null, a boolean or a
   * one-element array holding a short number is short: JavaScript converts the member before comparing.
   */
  lemma ObjectLengthConverted(k: nat)
    requires k < 6
    ensures ShorterThan(Some(JObj([Field("length", JStr(NatToString(k)))])), 6)
    ensures ShorterThan(Some(JObj([Field("length", JNull)])), 6)
    ensures ShorterThan(Some(JObj([Field("length", JBool(true))])), 6)
    ensures ShorterThan(Some(JObj([Field("length", JBool(false))])), 6)
    ensures ShorterThan(Some(JObj([Field("length", JArr([JNum(k)]))])), 6)
    ensures !ShorterThan(Some(JObj([Field("length", JObj([]))])), 6)
    ensures !ShorterThan(Some(JObj([Field("length", JNum(6))])), 6)
  {
    StringToNumberOfNat(k);
    assert ToNumber(JStr(NatToString(k))) == Some(k as int);
  }

  const CredentialsRequired := "Nombre de usuario y contraseña (mín. 6 caracteres) son requeridos."

  /** A password the checks accept: present, truthy and not shorter than 6. */
  predicate AcceptablePassword(password: Option<Json>)
  {
    Truthy(password) && !ShorterThan(password, 6)
  }

  /**
   * createUser: 400 without any lookup for a missing username or an unacceptable password; 409,
   * creating nothing, when the name exists; otherwise the user is created (201). A thrown
   * service call gives 500.
   */
  function CreateUser(body: Json, existing: Query<bool>, createSucceeds: bool): (h: Handled)
    ensures !(Truthy(Member(body, "username")) && AcceptablePassword(Member(body, "password"))) ==>
      h == Handled(Reply(400, CredentialsRequired), false)
    ensures h.wrote <==> Truthy(Member(body, "username")) && AcceptablePassword(Member(body, "password")) && existing == Rows(false)
    ensures existing == Rows(true) && h.response.status != 400 ==> h == Handled(Reply(409, "El nombre de usuario ya existe."), false)
    ensures h.response.status == 201 <==> h.wrote && createSucceeds
    ensures h.response.status == 201 ==> h.response == Reply(201, "Usuario creado exitosamente.")
  {
    if !Truthy(Member(body, "username")) || !Truthy(Member(body, "password")) || ShorterThan(Member(body, "password"), 6) then
      Handled(Reply(400, CredentialsRequired), false)
    else match existing
      case StorageError => Handled(Reply(500, "Error al crear el usuario."), false)
      case Rows(true) => Handled(Reply(409, "El nombre de usuario ya existe."), false)
      case Rows(false) =>
        if createSucceeds then Handled(Reply(201, "Usuario creado exitosamente."), true)
        else Handled(Reply(500, "Error al crear el usuario."), true)
  }

  /**
   * A non-empty password is accepted exactly at 6 or more UTF-16 code units; without astral
   * characters that is 6 or more characters.
   */
  lemma PasswordLengthDecides(p: string)
    requires p != ""
    ensures AcceptablePassword(Some(JStr(p))) <==> Utf16Length(p) >= 6
    ensures (forall k :: 0 <= k < |p| ==> !Astral(p[k])) ==> (AcceptablePassword(Some(JStr(p))) <==> |p| >= 6)
  {
  }

  /** Three emoji are six code units, so they pass the length check although they are three characters. */
  lemma AstralPasswordCounted()
    ensures AcceptablePassword(Some(JStr("\U{1F600}\U{1F600}\U{1F600}")))
    ensures !AcceptablePassword(Some(JStr("\U{1F600}\U{1F600}")))
  {
    var e := "\U{1F600}";
    assert Astral(e[0]);
    assert Utf16Length(e + e + e) == 6 by {
      assert (e + e + e)[1..] == e + e;
      assert (e + e)[1..] == e;
      assert e[1..] == [];
    }
    assert Utf16Length(e + e) == 4 by {
      assert (e + e)[1..] == e;
      assert e[1..] == [];
    }
  }

  /**
   * updateUser: 400 for a missing username or role; 400 when a password is supplied (truthy) and is
   * shorter than 6; otherwise the update is made (200), a thrown update giving 500.
   */
  function UpdateUser(body: Json, updateSucceeds: bool): (h: Handled)
    ensures !Truthy(Member(body, "username")) || !Truthy(Member(body, "role")) ==>
      h == Handled(Reply(400, "Nombre de usuario y rol son requeridos."), false)
    ensures Truthy(Member(body, "username")) && Truthy(Member(body, "role")) ==>
      (h.wrote <==> !(Truthy(Member(body, "password")) && ShorterThan(Member(body, "password"), 6)))
    ensures !h.wrote && h.response.status == 400 && Truthy(Member(body, "username")) && Truthy(Member(body, "role")) ==>
      h.response == Reply(400, "La nueva contraseña debe tener al menos 6 caracteres.")
    ensures h.wrote ==> h.response == (if updateSucceeds then Reply(200, "Usuario actualizado exitosamente.")
                                       else Reply(500, "Error al actualizar el usuario."))
  {
    if !Truthy(Member(body, "username")) || !Truthy(Member(body, "role")) then
      Handled(Reply(400, "Nombre de usuario y rol son requeridos."), false)
    else if Truthy(Member(body, "password")) && ShorterThan(Member(body, "password"), 6) then
      Handled(Reply(400, "La nueva contraseña debe tener al menos 6 caracteres."), false)
    else if updateSucceeds then Handled(Reply(200, "Usuario actualizado exitosamente."), true)
    else Handled(Reply(500, "Error al actualizar el usuario."), true)
  }

  /** Leaving the password out (or empty) keeps it and is not a reason to refuse. */
  lemma OmittedPasswordAccepted(body: Json, updateSucceeds: bool)
    requires Truthy(Member(body, "username")) && Truthy(Member(body, "role"))
    requires !Truthy(Member(body, "password"))
    ensures UpdateUser(body, updateSucceeds).wrote
  {
  }

  // ---------------------------------------------------------------------------
  // parseInt(id, 10)
  // ---------------------------------------------------------------------------

  /** The length of the run of decimal digits starting at `i`. */
  function DigitRun(s: string, i: nat): (n: nat)
    requires i <= |s|
    ensures i + n <= |s|
    ensures forall k :: i <= k < i + n ==> '0' <= s[k] <= '9'
    ensures i + n < |s| ==> !('0' <= s[i + n] <= '9')
    decreases |s| - i
  {
    if i < |s| && '0' <= s[i] <= '9' then 1 + DigitRun(s, i + 1) else 0
  }

  /**
   * `parseInt(s, 10)`: leading whitespace is skipped, then an optional sign and the longest run of
   * digits; None (NaN) when there is no digit. Whatever follows the digits is ignored.
   */
  function ParseInt(s: string): (r: Option<int>)
  {
    var i := SkipWhitespace(s, 0);
    var negative := i < |s| && s[i] == '-';
    var j := if i < |s| && (s[i] == '-' || s[i] == '+') then i + 1 else i;
    var n := DigitRun(s, j);
    if n == 0 then None
    else
      var v := DigitsValue(s[j..j + n]).value as int;
      Some(if negative then -v else v)
  }

  /** A numeral parses to the number it spells. */
  lemma ParseIntOfNat(n: nat)
    ensures ParseInt(NatToString(n)) == Some(n)
  {
    var s := NatToString(n);
    assert SkipWhitespace(s, 0) == 0;
    var k := DigitRun(s, 0);
    assert s[0..k] == s;
    DigitsValueOfNatToString(n);
  }

  /**
   * deleteUser: 400 when the id parses to the caller's own id; otherwise 404 when no row was
   * deleted and 200 when one was; a thrown delete gives 500.
   */
  function DeleteUser(id: string, currentUserId: int, deleted: Query<nat>): (h: Handled)
    ensures ParseInt(id) == Some(currentUserId) ==> h == Handled(Reply(400, "No puedes eliminar tu propia cuenta."), false)
    ensures ParseInt(id) != Some(currentUserId) ==> h.wrote
    ensures h.wrote && deleted == Rows(0) ==> h.response == Reply(404, "Usuario no encontrado.")
    ensures h.wrote && deleted.Rows? && deleted.value != 0 ==> h.response == Reply(200, "Usuario eliminado exitosamente.")
    ensures h.wrote && deleted.StorageError? ==> h.response == Reply(500, "Error al eliminar el usuario.")
  {
    if ParseInt(id) == Some(currentUserId) then Handled(Reply(400, "No puedes eliminar tu propia cuenta."), false)
    else match deleted
      case StorageError => Handled(Reply(500, "Error al eliminar el usuario."), true)
      case Rows(0) => Handled(Reply(404, "Usuario no encontrado."), true)
      case Rows(_) => Handled(Reply(200, "Usuario eliminado exitosamente."), true)
  }

  /** An administrator can never delete their own account through its id. */
  lemma NoSelfDeletion(userId: nat, deleted: Query<nat>)
    ensures !DeleteUser(NatToString(userId), userId, deleted).wrote
    ensures DeleteUser(NatToString(userId), userId, deleted).response.status == 400
  {
    ParseIntOfNat(userId);
  }
}
