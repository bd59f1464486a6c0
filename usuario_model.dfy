/**
 * User accounts (usuarios): the stored columns, the creation defaults and
 * the login-lockout bookkeeping of `estaBloqueado`, `incrementarTentativas`
 * and `resetarTentativas`. The password hash and its hooks are not part of
 * this model.
 */
module UsuarioModel {
  import opened Wrappers
  import opened Js
  import opened PerfilModel

  /** Failed logins that start a lockout. */
  const MaxTentativas: nat := 5

  /** Length of a lockout: thirty minutes, in milliseconds. */
  const BloqueioMs: nat := 30 * 60 * 1000

  datatype UsuarioRow = UsuarioRow(
    email: string,
    perfilId: nat,
    pessoaId: Option<nat>,
    ativo: bool,
    emailVerificado: bool,
    ultimoLogin: Option<Instant>,
    tentativasLogin: nat,
    bloqueadoAte: Option<Instant>)

  /** A freshly created row: the given columns, no failed logins, no lockout, no last login. */
  function NovoUsuario(email: string, perfilId: nat, pessoaId: Option<nat>, ativo: bool, emailVerificado: bool): UsuarioRow {
    UsuarioRow(email, perfilId, pessoaId, ativo, emailVerificado, None, 0, None)
  }

  /** `estaBloqueado()`: a lockout deadline is set and lies in the future. */
  predicate Bloqueado(u: UsuarioRow, now: Instant) {
    u.bloqueadoAte.Some? && now < u.bloqueadoAte.value
  }

  /** The row after `incrementarTentativas()` at instant `now`. */
  function AposFalha(u: UsuarioRow, now: Instant): (r: UsuarioRow)
    ensures r.tentativasLogin == u.tentativasLogin + 1
    ensures r.tentativasLogin >= MaxTentativas ==> forall t: Instant :: now <= t < now + BloqueioMs <==> Bloqueado(r, t) && now <= t
    ensures r.tentativasLogin < MaxTentativas ==> r == u.(tentativasLogin := r.tentativasLogin)
    ensures r.(tentativasLogin := u.tentativasLogin, bloqueadoAte := u.bloqueadoAte) == u
  {
    var n := u.tentativasLogin + 1;
    if n >= MaxTentativas then u.(tentativasLogin := n, bloqueadoAte := Some(now + BloqueioMs))
    else u.(tentativasLogin := n)
  }

  /** The row after `resetarTentativas()` at instant `now`. */
  function AposLogin(u: UsuarioRow, now: Instant): (r: UsuarioRow)
    ensures forall t :: !Bloqueado(r, t)
    ensures r.tentativasLogin == 0 && r.ultimoLogin == Some(now)
    ensures r.(tentativasLogin := u.tentativasLogin, bloqueadoAte := u.bloqueadoAte, ultimoLogin := u.ultimoLogin) == u
  {
    u.(tentativasLogin := 0, bloqueadoAte := None, ultimoLogin := Some(now))
  }

  /** The row after one failed login at each of the instants `ts`, in order. */
  function Falhas(u: UsuarioRow, ts: seq<Instant>): UsuarioRow
    decreases |ts|
  {
    if |ts| == 0 then u else AposFalha(Falhas(u, ts[..|ts| - 1]), ts[|ts| - 1])
  }

  /**
   * From a clean account, n failed logins leave the counter at n; the first
   * four set no lockout, and from the fifth on the lockout runs thirty
   * minutes from the latest failure. No other column changes.
   */
  lemma {:induction false} FalhasSeguidas(u: UsuarioRow, ts: seq<Instant>)
    requires u.tentativasLogin == 0 && u.bloqueadoAte == None
    ensures Falhas(u, ts).tentativasLogin == |ts|
    ensures |ts| < MaxTentativas ==> Falhas(u, ts).bloqueadoAte == None
    ensures |ts| >= MaxTentativas ==> Falhas(u, ts).bloqueadoAte == Some(ts[|ts| - 1] + BloqueioMs)
    ensures Falhas(u, ts).(tentativasLogin := 0, bloqueadoAte := None) == u
    decreases |ts|
  {
    if |ts| > 0 {
      FalhasSeguidas(u, ts[..|ts| - 1]);
    }
  }

  /** Four failed logins never lock an account; the fifth locks it until thirty minutes after it. */
  lemma {:induction false} QuintaFalhaBloqueia(u: UsuarioRow, ts: seq<Instant>, t: Instant)
    requires u.tentativasLogin == 0 && u.bloqueadoAte == None
    ensures |ts| < MaxTentativas ==> !Bloqueado(Falhas(u, ts), t)
    ensures |ts| >= MaxTentativas ==> (Bloqueado(Falhas(u, ts), t) <==> t < ts[|ts| - 1] + BloqueioMs)
  {
    FalhasSeguidas(u, ts);
  }

  /**
   * A loaded `Usuario` instance. `permissoesAnexadas` is the `permissions`
   * entry that authentication writes into the instance's `dataValues`; it is
   * not one of the model's attributes.
   */
  class Usuario {
    var email: string
    var perfilId: nat
    var pessoaId: Option<nat>
    var ativo: bool
    var emailVerificado: bool
    var ultimoLogin: Option<Instant>
    var tentativasLogin: nat
    var bloqueadoAte: Option<Instant>
    var perfil: Option<PerfilCarregado>
    var permissoesAnexadas: Option<seq<string>>

    /** `Usuario.findByPk` with the profile and its permissions included. */
    constructor Carregar(r: UsuarioRow, perfil: Option<PerfilCarregado>)
      ensures Row() == r && this.perfil == perfil && permissoesAnexadas == None
    {
      email := r.email;
      perfilId := r.perfilId;
      pessoaId := r.pessoaId;
      ativo := r.ativo;
      emailVerificado := r.emailVerificado;
      ultimoLogin := r.ultimoLogin;
      tentativasLogin := r.tentativasLogin;
      bloqueadoAte := r.bloqueadoAte;
      this.perfil := perfil;
      permissoesAnexadas := None;
    }

    /** The stored columns of this instance, as `save()` writes them. */
    function Row(): UsuarioRow
      reads this
    {
      UsuarioRow(email, perfilId, pessoaId, ativo, emailVerificado, ultimoLogin, tentativasLogin, bloqueadoAte)
    }

    predicate EstaBloqueado(now: Instant)
      reads this
    {
      Bloqueado(Row(), now)
    }

    method IncrementarTentativas(now: Instant)
      modifies this
      ensures Row() == AposFalha(old(Row()), now)
      ensures perfil == old(perfil) && permissoesAnexadas == old(permissoesAnexadas)
    {
      tentativasLogin := tentativasLogin + 1;
      if tentativasLogin >= MaxTentativas {
        bloqueadoAte := Some(now + BloqueioMs);
      }
    }

    method ResetarTentativas(now: Instant)
      modifies this
      ensures Row() == AposLogin(old(Row()), now)
      ensures perfil == old(perfil) && permissoesAnexadas == old(permissoesAnexadas)
    {
      tentativasLogin := 0;
      bloqueadoAte := None;
      ultimoLogin := Some(now);
    }
  }
}
