/**
 * Profiles (perfis) and permissions (permissoes): the stored columns, the
 * column validators, and the level test `temNivelAcesso`.
 */
module PerfilModel {
  import opened Wrappers

  /** A permission row: `codigo` is what authorization compares, `nome` is a display name. */
  datatype PermissaoRow = PermissaoRow(codigo: string, nome: string, descricao: Option<string>, modulo: Option<string>)

  datatype PerfilRow = PerfilRow(nome: string, descricao: Option<string>, nivelAcesso: int, ativo: bool)

  /** A profile loaded together with its permissions, as `include: permissoes` yields it. */
  datatype PerfilCarregado = PerfilCarregado(perfil: PerfilRow, permissoes: seq<PermissaoRow>)

  const NivelMinimo: int := 1
  const NivelMaximo: int := 10

  /** `nome` is non-empty and between 2 and 100 characters long. */
  predicate NomeValido(nome: string) {
    2 <= |nome| <= 100
  }

  /** `nivel_acesso` lies between 1 and 10 inclusive. */
  predicate NivelValido(n: int) {
    NivelMinimo <= n <= NivelMaximo
  }

  /** The column validators of one profile row. */
  predicate PerfilValido(p: PerfilRow) {
    NomeValido(p.nome) && NivelValido(p.nivelAcesso)
  }

  /** `temNivelAcesso(n)`: the profile's level is at least `n`. */
  predicate TemNivelAcesso(p: PerfilRow, nivelRequerido: int) {
    p.nivelAcesso >= nivelRequerido
  }

  /** A profile that reaches a level reaches every lower one. */
  lemma TemNivelAcessoMonotone(p: PerfilRow, n: int, m: int)
    requires m <= n
    ensures TemNivelAcesso(p, n) ==> TemNivelAcesso(p, m)
  {
  }

  /** What `setPermissoes(ids)` leaves in the join table: the set of the listed ids. */
  function PermissoesAssociadas(ids: seq<nat>): (s: set<nat>)
    ensures forall x :: x in s <==> x in ids
  {
    set i | 0 <= i < |ids| :: ids[i]
  }
}
