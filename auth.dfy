/**
 * The authentication and authorization middleware: `authenticate` (bearer
 * token, account state, lockout, attaching the permission list),
 * `authorize` (any-of over permission codes), the fixed-permission guards
 * `requireAdmin` and `canManage*`, and the helpers `hasPermission`,
 * `hasAnyPermission` and `hasAllPermissions`.
 *
 * Token signature checking is not part of this model: its outcome is an
 * input. The guards and helpers read `usuario?.permissions`; their parameter
 * `v` is the value that expression yields (`None` for `undefined`).
 */
module Auth {
  import opened Wrappers
  import opened Js
  import opened PerfilModel
  import opened UsuarioModel
  import Seed

  const AdminSistema := "admin_sistema"
  const BearerPrefix := "Bearer "

  /** How `jwt.verify` ended for the token. */
  datatype JwtOutcome = JwtExpired | JwtInvalid | JwtOk(userId: nat)

  datatype AuthFailure = TokenRequired | TokenExpired | TokenInvalid | UserMissingOrInactive | UserBlocked

  /** The permission names attached to an authenticated user: `perfil?.permissoes?.map(p => p.nome) || []`. */
  function PermissionNames(perfil: Option<PerfilCarregado>): (names: seq<string>)
    ensures perfil.None? ==> names == []
    ensures perfil.Some? ==> (|names| == |perfil.value.permissoes|
      && forall i :: 0 <= i < |names| ==> names[i] == perfil.value.permissoes[i].nome)
  {
    if perfil.None? then [] else seq(|perfil.value.permissoes|, i requires 0 <= i < |perfil.value.permissoes| => perfil.value.permissoes[i].nome)
  }

  /** The permission codes `authorize` compares: `perfil?.permissoes?.map(p => p.codigo) || []`. */
  function PermissionCodes(perfil: Option<PerfilCarregado>): (codes: seq<string>)
    ensures perfil.None? ==> codes == []
    ensures perfil.Some? ==> (|codes| == |perfil.value.permissoes|
      && forall i :: 0 <= i < |codes| ==> codes[i] == perfil.value.permissoes[i].codigo)
  {
    if perfil.None? then [] else seq(|perfil.value.permissoes|, i requires 0 <= i < |perfil.value.permissoes| => perfil.value.permissoes[i].codigo)
  }

  /**
   * `authenticate`: the header must carry a bearer token, the token must
   * verify, the user it names (`usuario`, the lookup result) must exist, be
   * active and not be locked out; then the permission names are attached to
   * the instance, which becomes the request's user. A refusal writes nothing.
   */
  method Authenticate(header: Option<string>, token: JwtOutcome, usuario: Usuario?, now: Instant)
    returns (r: Result<Usuario, AuthFailure>)
    modifies usuario
    ensures !StrTruthy(header) || !(BearerPrefix <= header.value) ==> r == Err(TokenRequired)
    ensures StrTruthy(header) && BearerPrefix <= header.value ==>
      (token.JwtExpired? ==> r == Err(TokenExpired))
      && (token.JwtInvalid? ==> r == Err(TokenInvalid))
      && (token.JwtOk? && (usuario == null || !usuario.ativo) ==> r == Err(UserMissingOrInactive))
      && (token.JwtOk? && usuario != null && usuario.ativo && usuario.EstaBloqueado(now) ==> r == Err(UserBlocked))
      && (token.JwtOk? && usuario != null && usuario.ativo && !usuario.EstaBloqueado(now) ==> r.Ok? && r.value == usuario)
    ensures r.Err? && usuario != null ==> unchanged(usuario)
    ensures r.Ok? ==> (r.value == usuario && usuario.Row() == old(usuario.Row()) && usuario.perfil == old(usuario.perfil)
      && usuario.permissoesAnexadas == Some(PermissionNames(usuario.perfil)))
  {
    if !StrTruthy(header) || !(BearerPrefix <= header.value) {
      return Err(TokenRequired);
    }
    match token {
      case JwtExpired => return Err(TokenExpired);
      case JwtInvalid => return Err(TokenInvalid);
      case JwtOk(_) =>
    }
    if usuario == null || !usuario.ativo {
      return Err(UserMissingOrInactive);
    }
    if usuario.EstaBloqueado(now) {
      return Err(UserBlocked);
    }
    var u: Usuario := usuario;
    u.permissoesAnexadas := Some(PermissionNames(u.perfil));
    r := Ok(u);
  }

  /**
   * `req.user?.permissions` when the request's user is the instance
   * `authenticate` attached: `permissions` is not an attribute of the
   * `Usuario` model, so the instance has no accessor for it and the read
   * yields `undefined`, whatever `dataValues.permissions` holds.
   */
  function InstancePermissionsProperty(u: Usuario?): Option<seq<string>> {
    None
  }

  /** `u.toJSON().permissions`: the plain copy does carry the attached list. */
  function JsonPermissions(u: Usuario): Option<seq<string>>
    reads u
  {
    u.permissoesAnexadas
  }

  /** `usuario?.permissions || []` (an array, even an empty one, is truthy). */
  function Held(v: Option<seq<string>>): seq<string> {
    if v.Some? then v.value else []
  }

  datatype AuthorizeOutcome = Allowed | NoProfile | Insufficient

  /** `permissoesRequeridas.some(p => codes.includes(p))`. */
  function SomeIncluded(required: seq<string>, codes: seq<string>): bool
    decreases |required|
  {
    |required| > 0 && (required[0] in codes || SomeIncluded(required[1..], codes))
  }

  /**
   * `authorize(permissoesRequeridas)`: a user with a profile passes when at
   * least one required code is among the profile's permission codes.
   */
  function Authorize(u: Usuario?, required: seq<string>): AuthorizeOutcome
    reads u
  {
    if u == null || u.perfil.None? then NoProfile
    else if SomeIncluded(required, PermissionCodes(u.perfil)) then Allowed
    else Insufficient
  }

  lemma {:induction false} SomeIncludedIff(required: seq<string>, codes: seq<string>)
    ensures SomeIncluded(required, codes) <==> exists i :: 0 <= i < |required| && required[i] in codes
    decreases |required|
  {
    if |required| > 0 {
      SomeIncludedIff(required[1..], codes);
      if SomeIncluded(required[1..], codes) {
        var i :| 0 <= i < |required[1..]| && required[1..][i] in codes;
        assert required[i + 1] in codes;
      }
      if exists i :: 0 <= i < |required| && required[i] in codes {
        var i :| 0 <= i < |required| && required[i] in codes;
        if i > 0 {
          assert required[1..][i - 1] in codes;
        }
      }
    }
  }

  /**
   * `authorize` lets a user through exactly when the user has a profile and
   * one of the required codes is a permission code of that profile; there is
   * no administrator override, and an empty requirement list refuses everyone.
   */
  lemma AuthorizeIff(u: Usuario?, required: seq<string>)
    ensures Authorize(u, required) == Allowed <==>
      u != null && u.perfil.Some? && exists i :: 0 <= i < |required| && required[i] in PermissionCodes(u.perfil)
    ensures |required| == 0 ==> Authorize(u, required) != Allowed
    ensures u != null && u.perfil.Some? && Authorize(u, required) != Allowed ==> Authorize(u, required) == Insufficient
  {
    if u != null && u.perfil.Some? {
      SomeIncludedIff(required, PermissionCodes(u.perfil));
    }
  }

  /** `requireAdmin`. */
  predicate RequireAdmin(v: Option<seq<string>>) {
    AdminSistema in Held(v)
  }

  /** The shape shared by the `canManage*` guards: the specific code or the administrator code. */
  predicate CanManage(v: Option<seq<string>>, code: string) {
    code in Held(v) || AdminSistema in Held(v)
  }

  predicate CanManageCultos(v: Option<seq<string>>) { CanManage(v, "manage_cultos") }
  predicate CanManageEscalas(v: Option<seq<string>>) { CanManage(v, "manage_escalas") }
  predicate CanManagePessoas(v: Option<seq<string>>) { CanManage(v, "manage_pessoas") }
  predicate CanManageVisitantes(v: Option<seq<string>>) { CanManage(v, "manage_visitantes") }
  predicate CanViewReports(v: Option<seq<string>>) { CanManage(v, "read_relatorios") }

  /** `hasPermission(usuario, p)`. */
  predicate HasPermission(v: Option<seq<string>>, p: string) {
    p in Held(v) || AdminSistema in Held(v)
  }

  /** `hasAnyPermission(usuario, ps)`: `ps.some(p => hasPermission-style test)`. */
  function HasAnyPermission(v: Option<seq<string>>, ps: seq<string>): bool
    decreases |ps|
  {
    |ps| > 0 && ((ps[0] in Held(v) || AdminSistema in Held(v)) || HasAnyPermission(v, ps[1..]))
  }

  /** `permissoes.every(p => held.includes(p))`. */
  function EveryHeld(held: seq<string>, ps: seq<string>): bool
    decreases |ps|
  {
    |ps| == 0 || (ps[0] in held && EveryHeld(held, ps[1..]))
  }

  /** `hasAllPermissions(usuario, ps)`: the administrator code, or every listed one. */
  function HasAllPermissions(v: Option<seq<string>>, ps: seq<string>): bool {
    AdminSistema in Held(v) || EveryHeld(Held(v), ps)
  }

  /** `hasAnyPermission` holds exactly when `hasPermission` holds for some listed permission. */
  lemma {:induction false} HasAnyPermissionIff(v: Option<seq<string>>, ps: seq<string>)
    ensures HasAnyPermission(v, ps) <==> exists i :: 0 <= i < |ps| && HasPermission(v, ps[i])
    decreases |ps|
  {
    if |ps| > 0 {
      HasAnyPermissionIff(v, ps[1..]);
      if HasAnyPermission(v, ps[1..]) {
        var i :| 0 <= i < |ps[1..]| && HasPermission(v, ps[1..][i]);
        assert HasPermission(v, ps[i + 1]);
      }
      if exists i :: 0 <= i < |ps| && HasPermission(v, ps[i]) {
        var i :| 0 <= i < |ps| && HasPermission(v, ps[i]);
        if i > 0 {
          assert HasPermission(v, ps[1..][i - 1]);
        }
      }
    }
  }

  lemma {:induction false} EveryHeldIff(held: seq<string>, ps: seq<string>)
    ensures EveryHeld(held, ps) <==> forall i :: 0 <= i < |ps| ==> ps[i] in held
    decreases |ps|
  {
    if |ps| > 0 {
      EveryHeldIff(held, ps[1..]);
      assert forall i :: 1 <= i < |ps| ==> ps[i] == ps[1..][i - 1];
    }
  }

  /**
   * `hasAllPermissions` holds exactly when the administrator code is held or
   * every listed permission is; on a non-empty list it implies
   * `hasAnyPermission`.
   */
  lemma HasAllPermissionsIff(v: Option<seq<string>>, ps: seq<string>)
    ensures HasAllPermissions(v, ps) <==> AdminSistema in Held(v) || forall i :: 0 <= i < |ps| ==> ps[i] in Held(v)
    ensures |ps| > 0 && HasAllPermissions(v, ps) ==> HasAnyPermission(v, ps)
  {
    EveryHeldIff(Held(v), ps);
    HasAnyPermissionIff(v, ps);
    if |ps| > 0 && HasAllPermissions(v, ps) {
      assert HasPermission(v, ps[0]);
    }
  }

  /** On a single permission, `hasAllPermissions` and `hasAnyPermission` both agree with `hasPermission`. */
  lemma {:induction false} SinglePermission(v: Option<seq<string>>, p: string)
    ensures HasAllPermissions(v, [p]) == HasPermission(v, p)
    ensures HasAnyPermission(v, [p]) == HasPermission(v, p)
  {
    assert [p][1..] == [];
    assert EveryHeld(Held(v), [p]) == (p in Held(v));
  }

  /**
   * Holding more permissions never turns an allowed check into a refused
   * one: not the single, any-of and all-of helpers, and not the
   * `requireAdmin` and `canManage*` guards.
   */
  lemma HasPermissionMonotone(v: Option<seq<string>>, w: Option<seq<string>>, ps: seq<string>, p: string)
    requires forall q :: q in Held(v) ==> q in Held(w)
    ensures HasPermission(v, p) ==> HasPermission(w, p)
    ensures RequireAdmin(v) ==> RequireAdmin(w)
    ensures CanManage(v, p) ==> CanManage(w, p)
    ensures HasAnyPermission(v, ps) ==> HasAnyPermission(w, ps)
    ensures HasAllPermissions(v, ps) ==> HasAllPermissions(w, ps)
  {
    HasAnyPermissionIff(v, ps);
    HasAnyPermissionIff(w, ps);
    HasAllPermissionsIff(v, ps);
    HasAllPermissionsIff(w, ps);
    if HasAnyPermission(v, ps) {
      var i :| 0 <= i < |ps| && HasPermission(v, ps[i]);
      assert HasPermission(w, ps[i]);
    }
  }

  /**
   * The guards and helpers read a property the request's user does not
   * have, so behind `authenticate` they refuse everyone: `requireAdmin`,
   * every `canManage*` guard, and every `hasPermission`.
   */
  lemma GuardsRefuseAuthenticatedInstances(u: Usuario?, p: string)
    ensures !RequireAdmin(InstancePermissionsProperty(u))
    ensures !CanManageCultos(InstancePermissionsProperty(u)) && !CanManageEscalas(InstancePermissionsProperty(u))
    ensures !CanManagePessoas(InstancePermissionsProperty(u)) && !CanManageVisitantes(InstancePermissionsProperty(u))
    ensures !CanViewReports(InstancePermissionsProperty(u))
    ensures !HasPermission(InstancePermissionsProperty(u), p)
  {
  }

  /**
   * Even read through `toJSON()`, the attached list holds permission names,
   * while the guards look for codes: a profile holding exactly the seeded
   * administrator permission is refused by `requireAdmin`, although
   * `authorize(['admin_sistema'])` lets the same user through.
   */
  lemma {:induction false} AttachedNamesAreNotCodes(u: Usuario)
    requires u.perfil.Some? && u.perfil.value.permissoes == [Seed.PermAdminSistema]
    requires u.permissoesAnexadas == Some(PermissionNames(u.perfil))
    ensures !RequireAdmin(JsonPermissions(u))
    ensures Authorize(u, [AdminSistema]) == Allowed
  {
    assert Held(JsonPermissions(u)) == ["Administrar Sistema"];
    assert PermissionCodes(u.perfil) == [AdminSistema];
  }
}
