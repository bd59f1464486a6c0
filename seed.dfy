/**
 * The reference data the seeding script writes: a few permission rows and
 * the two status tables. Status ids are positions in these lists plus one,
 * the order in which the rows are created.
 */
module Seed {
  import opened Wrappers
  import opened PerfilModel

  const PermAdminSistema := PermissaoRow("admin_sistema", "Administrar Sistema", Some("Acesso total ao sistema"), Some("sistema"))
  const PermManageCultos := PermissaoRow("manage_cultos", "Gerenciar Cultos", Some("Gerenciar todos os aspectos dos cultos"), Some("cultos"))
  const PermManageEscalas := PermissaoRow("manage_escalas", "Gerenciar Escalas", Some("Gerenciar todas as escalas"), Some("escalas"))
  const PermManagePessoas := PermissaoRow("manage_pessoas", "Gerenciar Pessoas", Some("Gerenciar cadastro de pessoas"), Some("pessoas"))
  const PermManageVisitantes := PermissaoRow("manage_visitantes", "Gerenciar Visitantes", Some("Gerenciar visitantes"), Some("visitantes"))
  const PermReadRelatorios := PermissaoRow("read_relatorios", "Visualizar Relatórios", Some("Acessar relatórios do sistema"), Some("relatorios"))

  /** The seeded permissions the middleware checks by code. */
  const PermissoesDoMiddleware: seq<PermissaoRow> :=
    [PermAdminSistema, PermManageCultos, PermManageEscalas, PermManagePessoas, PermManageVisitantes, PermReadRelatorios]

  /** status_culto: 1 Planejado, 2 Em Andamento, 3 Finalizado, 4 Cancelado. */
  const StatusCulto: seq<string> := ["Planejado", "Em Andamento", "Finalizado", "Cancelado"]

  /** status_escala: 1 Pendente, 2 Confirmado, 3 Presente, 4 Ausente. */
  const StatusEscala: seq<string> := ["Pendente", "Confirmado", "Presente", "Ausente"]

  /**
   * `Status.findOne({ where: { nome } })` over a status table: the id of the
   * first row with that name, or nothing.
   */
  function BuscarStatus(tabela: seq<string>, nome: string): (r: Option<nat>)
    ensures r.Some? ==> 1 <= r.value <= |tabela| && tabela[r.value - 1] == nome
    ensures r.Some? ==> forall i :: 0 <= i < r.value - 1 ==> tabela[i] != nome
    ensures r.None? ==> forall i :: 0 <= i < |tabela| ==> tabela[i] != nome
  {
    if |tabela| == 0 then None
    else if tabela[0] == nome then Some(1)
    else match BuscarStatus(tabela[1..], nome)
      case None => None
      case Some(k) => Some(k + 1)
  }

  /** `(Status.findOne({ where: { nome } }))?.id || fallback`. */
  function StatusOu(tabela: seq<string>, nome: string, fallback: nat): nat {
    match BuscarStatus(tabela, nome)
    case Some(id) => id
    case None => fallback
  }
}
