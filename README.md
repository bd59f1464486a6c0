# Church service management backend — verified model

This project models the core of a REST backend that a church uses to run its
services. It covers:

- **Cultos:** the services themselves.
- **Programação:** the activities in each service.
- **Escalas:** who serves in which role (função) at each service.
- **Pessoas and usuários:** the people and the user accounts.
- **Perfis and permissões:** profiles with access levels and permission lists.
- **Avaliações:** a public form for rating a visit.
- **Configuração:** an in-memory settings object.

The model follows the code of the middleware, the models and the controllers.
It is written in Dafny, and every contract below is proved.

How the model is laid out:

- **One module per source file.** `Auth` models `middleware/auth.js`. The
  `*Model` modules model the Sequelize models. The `*Controller` modules model
  the Express handlers.
- **`Db` is the database.** It is one class holding every table the core
  touches. Each table is a map from id to live row. A soft-deleted
  (`paranoid`) row leaves its map. Each table has its own id counter, so ids
  are never reused.
- **Controller actions are methods on a `Db`.**
  - Each method may change only the fields it names.
  - Each method lists the guards of its handler in source order.
  - A refusal is an `Err` that leaves every table unchanged.
  - An accepted request is an `Ok`, and the method states the new content of
    the tables it writes.
  - A request that fails after some writes (there are no transactions) is
    an `Err`, and the method still states what was written.
- **Loaded instances whose methods update fields in place are classes.**
  These are `Usuario` and `Escala` (`incrementarTentativas`, `confirmar`, and
  so on), and the module-level settings object (`ConfigStore`).
- **Pure helpers are functions,** with lemmas about them: the lockout
  arithmetic, conflict windows, age, name abbreviation, pagination, trimming,
  and the e-mail regular expression.
- **JavaScript value semantics are explicit.**
  - A body key is modelled with `Given<T>`, so an absent key (`Omitted`) is
    different from one sent with a value.
  - Truthiness is modelled by `StrTruthy`, `IdTruthy` and `Truthy`.
  - `x || y` is modelled by `OrStr`, `OrId` and `OrElse`; `x !== undefined ? x : y`
    by `IfSent`.
  - `trim` and `split(' ')` have explicit definitions.
- **Units:**
  - Instants are `nat` milliseconds.
  - `DATEONLY` values are day numbers.
  - `TIME` values are seconds after midnight below 86400.
- **Status tables are sequences of names.**
  - A row's id is its position plus one, which is the order in which the
    seeding script creates the rows.
  - `findOne({ where: { nome } })` returns the first row with that name.

## Behaviour of the code as written

The model states what the code does, and proves several places where it
differs from what the models or the messages suggest.

- **Permission names and codes.** `authenticate` attaches permission *names*
  (`p.nome`), but `authorize` compares permission *codes* (`p.codigo`).
  - The attached list sits in `dataValues`. `permissions` is not an attribute
    of the model, so `req.user.permissions` on the instance is `undefined`.
  - As a result, `requireAdmin`, the `canManage*` guards and `hasPermission`
    refuse every authenticated instance (`Auth.GuardsRefuseAuthenticatedInstances`).
  - Even on the plain JSON copy, the attached names never match a code
    (`Auth.AttachedNamesAreNotCodes`).
- **Service status codes.**
  - `atualizarCulto` refuses status 2 ('Em Andamento' in the seeded table),
    not status 3.
  - `excluirCulto` refuses status 3 but allows status 4.
  - `excluirCulto` compares against the start of the day, while
    `podeSerExcluido` compares against the start of the service.

  See `CultosController.StatusDivergentes` and `CultosController.ExclusaoNoDiaDoCulto`.
- **Conflict windows.** Without an end time, `verificarConflitoHorario`
  searches to the end of the day, while the model's `verificarConflito` treats
  the service as a single instant (`CultosController.SemFimAteOFimDoDia`).
- **Updates validate only changed columns.** An update may move a service's
  start past its stored end (`CultosController.InicioDepoisDoFimAceito`).
- **Assignment duplicates.**
  - The duplicate check of `escalas.criar` ignores cancelled rows, but the
    unique index on (culto, pessoa, funcao) does not. Re-creating an
    assignment after cancelling it therefore fails in the database
    (`EscalasController.RecriarAposCancelar`).
  - The duplicate check of `escalas.atualizar` ignores the service
    (`EscalasController.DuplicidadeIgnoraCulto`).
- **Missing status names.** `confirmar` and `cancelar` look up the status
  names 'Confirmada' and 'Cancelada', which the seed does not create, so the
  numeric fallbacks 2 and 4 apply (`EscalasController.StatusComSeed`).
- **Columns that do not exist.** Some handlers write keys that are not
  columns, so those writes are dropped:
  - `confirmar` writes `data_confirmacao`, so `confirmado_em` never changes.
  - The função handlers write `ativa` and `criado_por`, so the `ativo`
    column keeps its value.
  - `atividades.atualizar` writes `nome`, `horario_fim` and `ativa`
    (src/controllers/atividadesController.js:485-491), none of them a column
    of src/models/Atividade.js, so only the other fields change
    (`AtividadesController.AtividadeAtualizada`).
- **Activity creation never stores anything.** `atividades.criar` passes the
  guards, then calls `create` with `nome`, `horario_fim`, `ativa` and
  `criado_por` (src/controllers/atividadesController.js:344-354). None of
  them is a column. `titulo`, `ordem_programacao` and `created_by` are
  `NOT NULL` (src/models/Atividade.js:7-14) and are left out. Every request
  that passes the guards therefore ends in an internal error, with no
  activity and no link written (`AtividadesController.Criar`).
- **The programme of a new service.** `criarAtividades`
  (src/controllers/cultosController.js:707-715) inserts each item's own
  column values with the service's id.
  - The `ordem` it computes names no column, so the stored order is the
    item's `ordem_programacao`.
  - An item without a title, type, order or creator makes the whole bulk
    insert fail. `criarCulto` then answers an internal error, keeps the
    service, and tries no assignment (`CultosController.ProgramacaoColunas`,
    `CultosController.CriarCulto`).
- **E-mail of a person.** The `pessoas` table has no `email` column
  (src/models/Pessoa.js).
  - A truthy `email` is looked up with `where: { email }`
    (src/controllers/pessoasController.js:306-316 and 443-456). The query
    fails, and the request is an internal error before anything is written.
  - A falsy `email` skips the lookup, and `create` and `update` drop the key
    (`PessoasController.RecusaCampos`).
- **Answers built from associations that do not exist.** Two handlers write,
  then reload the row for the answer, and the reload throws. The writes stay
  and the answer is an internal error.
  - `atividades.atualizar` reloads with the aliases `pessoas` and
    `departamentos` (src/controllers/atividadesController.js:527 and 538).
    The associations are named `atividadePessoas` and
    `atividadeDepartamentos` (src/models/index.js:90 and 96). The reload also
    asks for the missing columns `icone` and `data_hora` (518 and 523). See
    `AtividadesController.Atualizar`.
  - `escalas.cancelar` asks the person for `nome` and `email`
    (src/controllers/escalasController.js:526). See `EscalasController.Cancelar`.

## Model

| member | source | states |
|---|---|---|
| Auth.PermissionNames | src/middleware/auth.js:56 | The attached list has one entry per permission of the profile, in order, and each entry is that permission's `nome`. Without a profile the list is empty. |
| Auth.PermissionCodes | src/middleware/auth.js:102 | `authorize` compares one entry per permission of the profile, in order, and each entry is that permission's `codigo`. Without a profile the list is empty. |
| Auth.Authenticate | src/middleware/auth.js:5-83 | The outcomes, in source order: (1) no bearer header gives TokenRequired; (2) an expired token gives TokenExpired; (3) any other verify failure gives TokenInvalid; (4) a missing or inactive user gives UserMissingOrInactive; (5) a user locked at this instant gives UserBlocked; (6) otherwise the request's user is that same instance, with its columns and profile unchanged and the permission names attached. A refusal writes nothing. |
| Auth.SomeIncludedIff | src/middleware/auth.js:108-110 | The `some`/`includes` test holds exactly when some required permission is among the user's codes. |
| Auth.AuthorizeIff | src/middleware/auth.js:86-131 | Access is allowed exactly when a user with a profile holds the code of some required permission. An empty requirement list never allows. A user with a profile who is refused gets "insufficient", not "no profile". |
| Auth.HasAnyPermissionIff | src/middleware/auth.js:224-229 | `hasAnyPermission` holds exactly when `hasPermission` holds for some listed permission. |
| Auth.EveryHeldIff | src/middleware/auth.js:239 | The `every`/`includes` test holds exactly when every listed permission is held. |
| Auth.HasAllPermissionsIff | src/middleware/auth.js:232-240 | `hasAllPermissions` holds exactly when the user holds the administrator permission or every listed one. For a non-empty list it implies `hasAnyPermission`. |
| Auth.SinglePermission | src/middleware/auth.js:218-240 | For a single permission, `hasAllPermissions` and `hasAnyPermission` both agree with `hasPermission`. |
| Auth.HasPermissionMonotone | src/middleware/auth.js:134-240 | Holding a superset of permissions never turns an allowed check into a refusal: not `hasPermission`, `requireAdmin`, a `canManage*` guard, nor an any-of or all-of check. |
| Auth.GuardsRefuseAuthenticatedInstances | src/middleware/auth.js:134-221 | On the instance `authenticate` attaches, `requireAdmin`, all five `canManage*`/`canViewReports` guards and `hasPermission` refuse, because the instance's `permissions` property is undefined. |
| Auth.AttachedNamesAreNotCodes | src/middleware/auth.js:56-57 | With the seeded administrator permission, the attached names do not satisfy `requireAdmin`, even on the JSON copy, while `authorize(['admin_sistema'])` allows the same user. |
| Seed.BuscarStatus | src/controllers/escalasController.js:240-242 | A name lookup returns the 1-based position of the first row with that name, and no row before it has the name. It finds nothing exactly when no row has the name. |
| Tabela.Lote | src/controllers/cultosController.js:714 | A bulk insert adds exactly the ids `proximo … proximo+n-1`, puts row i at id `proximo+i`, and leaves every other row as it was. An empty batch leaves the table unchanged. |
| Tabela.Linhas | src/controllers/cultosController.js:714 | A bulk insert has rows exactly when every item can be stored. Row i is then item i's row. |
| Paginacao.TotalPaginas | src/controllers/cultosController.js:179 | `Math.ceil(count/limit)` is the least page count that holds every row. It is zero exactly when there are no rows. |
| Paginacao.TemProximaIff | src/controllers/cultosController.js:190 | `hasNext` holds exactly when the next page's offset is below the row count. |
| Paginacao.PaginaDaLinha | src/controllers/cultosController.js:145 | Every row position lies on exactly one page. That page is `i/limit + 1`, between 1 and the page count. |
| PerfilModel.TemNivelAcessoMonotone | src/models/Perfil.js:73-75 | A profile that reaches a level reaches every lower level. |
| PerfilModel.PermissoesAssociadas | src/controllers/perfisController.js:204 | After `setPermissoes(ids)`, the profile is associated with exactly the listed ids. |
| UsuarioModel.AposFalha | src/models/Usuario.js:147-155 | A failed login adds one to the counter. From the fifth failure on, the account is locked for exactly the thirty minutes from now. Below five, nothing else changes. In either case no column other than the counter and the lock changes. |
| UsuarioModel.AposLogin | src/models/Usuario.js:157-162 | After a successful login the account is never locked, the counter is 0 and the last login is now. Every other column is unchanged. |
| UsuarioModel.FalhasSeguidas | src/models/Usuario.js:147-155 | From a clean account, n failures leave the counter at n. There is no lockout below five. From five on, the lockout ends thirty minutes after the latest failure. No other column changes. |
| UsuarioModel.QuintaFalhaBloqueia | src/models/Usuario.js:143-155 | Four failures never lock an account. After five or more, `estaBloqueado` holds exactly until thirty minutes after the last failure. |
| UsuarioModel.Usuario.IncrementarTentativas | src/models/Usuario.js:147-155 | The instance's columns become the row after one failure. The loaded profile is unchanged. |
| UsuarioModel.Usuario.ResetarTentativas | src/models/Usuario.js:157-162 | The instance's columns become the row after a successful login. The loaded profile is unchanged. |
| PessoaModel.CombinaTelefone | src/models/Pessoa.js:90-92 | The phone pattern matches exactly the non-empty strings made only of digits, whitespace, `(`, `)`, `-` and `+`. |
| PessoaModel.GetIdade | src/models/Pessoa.js:180-194 | There is no age exactly when there is no birth date. The age is never negative once the birth date is reached. |
| PessoaModel.IdadeNoAniversario | src/models/Pessoa.js:184-191 | On the birthday the age is the difference of the years. Earlier in that year it is one less. |
| PessoaModel.IdadeMonotona | src/models/Pessoa.js:180-194 | Age never decreases as the current date moves forward. |
| PessoaModel.GetNomeAbreviado | src/models/Pessoa.js:197-201 | The short name has the same first word and the same last word as the full name. A name of more than two parts gives exactly two words. A name of at most two parts is returned unchanged. |
| PessoaModel.NomeAbreviadoIdempotente | src/models/Pessoa.js:197-201 | Abbreviating an abbreviated name changes nothing. |
| Js.TrimBlankIff | src/controllers/configuracaoController.js:121 | `trim()` yields the empty string exactly when every character is whitespace. |
| Js.SplitOn | src/models/Pessoa.js:198 | `split(' ')` yields at least one part, and no part contains the separator. Joining the parts with the separator gives back the text. |
| CultoModel.SobreposicaoFechada | src/models/Culto.js:151-178 | For two services that each end after they start, the three clauses of `verificarConflito` hold exactly when their closed intervals meet. |
| CultoModel.SobreposicaoSimetrica | src/models/Culto.js:151-178 | Under the same conditions, the conflict test does not depend on which service is the candidate. |
| CultoModel.CandidatoSemFim | src/models/Culto.js:157-170 | A candidate without an end conflicts with a stored service exactly when it starts within that service's closed interval. When the stored service also has no end, they conflict exactly when both start together. |
| CultoModel.EdicaoExclusao | src/models/Culto.js:181-195 | Whatever may be edited may be deleted. Once a service may no longer be deleted, it stays undeletable and uneditable later. |
| CultosController.ConflitoConcordaComModelo | src/controllers/cultosController.js:665-705 | For a candidate with an end and a place, the controller's conflict query finds a row exactly when the model's `verificarConflito` does. |
| CultosController.SemFimAteOFimDoDia | src/controllers/cultosController.js:671-683 | Without an end, a stored service starting later that day meets the controller's clauses but not the model's. |
| CultosController.SemLocalAlcancaTodos | src/controllers/cultosController.js:688-690 | Leaving the place out only adds conflicts. A falsy place behaves exactly like no place. |
| AtividadeModel.LinhaDeAtividadeInversa | src/models/Atividade.js:4-14 | The table accepts a set of column values exactly when they are the full values of some row, and it then stores that row. |
| CultosController.ProgramacaoColunas | src/controllers/cultosController.js:707-715 | The programme is stored exactly when every item has a title, type, order and creator. There is then one row per item, in order. Each row belongs to the service and holds its item's values, the item's `ordem_programacao` included, with no validator applied. |
| CultosController.EscalasDoLote | src/controllers/cultosController.js:717-729 | The batch exists exactly when every item has its NOT NULL columns. Row i is the row built from item i, with the service id and the status default. |
| CultosController.CriarAtividades | src/controllers/cultosController.js:707-715 | The call succeeds exactly when every item has its NOT NULL columns. The activity table then grows by the programme rows at fresh consecutive ids, and the counter advances by their number. Otherwise nothing is written. |
| CultosController.CriarEscalas | src/controllers/cultosController.js:717-729 | The batch is inserted at fresh ids exactly when it is complete and breaks no unique key. Otherwise the call fails and writes nothing. |
| CultosController.NovoCultoComSeed | src/controllers/cultosController.js:368-382 | With the seeded status table, a new service has status 1 ('Planejado'), and an absent place becomes 'Templo Principal'. |
| CultosController.CriarCulto | src/controllers/cultosController.js:323-415 | Each guard in order (required fields, type, time conflict) refuses with its error and leaves every table unchanged. An invalid row is an internal error with nothing written. Otherwise the service, its programme and its assignments are written with no transaction. A failed programme is an internal error: the service stays and no assignment is written. When the assignments fail, the service and programme stay and the answer is an internal error. |
| CultosController.InserirCulto | src/controllers/cultosController.js:372-383 | A valid service is stored at the counter's id, which was free, and the counter advances. |
| CultosController.GravarCulto | src/controllers/cultosController.js:372-391 | The service is written. A failed programme stops there with an internal error. Otherwise the programme, then the assignments are written, and the result tells whether the assignments went in. |
| CultosController.GravarProgramacao | src/controllers/cultosController.js:385-387 | An empty programme writes nothing and succeeds. Otherwise the programme is bulk-inserted exactly when every item is complete, and nothing is written when one is not. |
| CultosController.GravarEscalas | src/controllers/cultosController.js:389-391 | An empty list writes nothing and succeeds. Otherwise the batch is inserted exactly when it is complete and collision-free. |
| CultosController.RecusaAtualizar | src/controllers/cultosController.js:460-492 | An accepted update names an existing service. |
| CultosController.AtualizacaoPreservaTitulo | src/controllers/cultosController.js:497-507 | An update that passes the validators of its changed columns keeps a valid title. An end time it changes lies after the start. |
| CultosController.InicioDepoisDoFimAceito | src/models/Culto.js:96-106 | Moving only the start of a service past its stored end is accepted. The stored row then ends before it starts. |
| CultosController.AtualizarCulto | src/controllers/cultosController.js:445-530 | Not found, status 2 and time conflict each refuse with nothing changed. A changed column failing its validator is an internal error with nothing changed. Otherwise exactly this service becomes the merged row. |
| CultosController.GravarAtualizacao | src/controllers/cultosController.js:497-507 | The service's row is replaced by the merged row, and no other service changes. |
| CultosController.RecusaExcluir | src/controllers/cultosController.js:552-580 | An accepted deletion names an existing service. |
| CultosController.ExcluirCulto | src/controllers/cultosController.js:552-597 | A missing service, a day already begun, or status 3 each refuse with nothing changed. Otherwise only that service is soft-deleted. |
| CultosController.StatusDivergentes | src/controllers/cultosController.js:468-473 | For a future service: status 3 ('Finalizado') passes the edit guard though `podeSerEditado` refuses it; status 2 ('Em Andamento') is refused edit; status 4 may be deleted though it may not be edited. |
| CultosController.ExclusaoNoDiaDoCulto | src/controllers/cultosController.js:565-573 | Later on the day of a service, before it starts, `podeSerExcluido` allows deletion while the controller refuses it. |
| CultosController.AtualizarStatus | src/controllers/cultosController.js:626-662 | A missing service or an unknown status refuses with nothing changed. Otherwise only that service's status changes. |
| EscalaModel.GravarPreservaIndice | src/models/Escala.js:120-125 | Writing a row whose (culto, pessoa, funcao) key no other live row holds keeps the unique index intact. |
| EscalaModel.LoteIndiceIff | src/models/Escala.js:120-125 | After a bulk insert at fresh ids, the unique index holds exactly when no new row takes a live key and no two new rows share one. |
| EscalaModel.Escala.Confirmar | src/models/Escala.js:146-150 | `confirmar` records the confirmation time and moves to status 2 from any status. Nothing else changes, and the check-in state is kept. |
| EscalaModel.Escala.FazerCheckIn | src/models/Escala.js:152-156 | `fazerCheckIn` records the check-in time and moves to status 3 without needing a confirmation. Nothing else changes. |
| EscalaModel.Escala.MarcarAusente | src/models/Escala.js:158-161 | `marcarAusente` moves to status 4 and keeps both recorded times. |
| EscalasController.Criar | src/controllers/escalasController.js:183-308 | Each guard in order refuses with its error and nothing changed: required ids, person, function, service, an active duplicate. A triple still held by a cancelled row is refused by the index, with nothing changed. Otherwise the pending row is stored at a fresh id. |
| EscalasController.RecriarAposCancelar | src/controllers/escalasController.js:223-230 | A triple whose only row is cancelled passes the controller's duplicate test, yet its key is still held in the unique index. |
| EscalasController.RecusaAtualizar | src/controllers/escalasController.js:321-355 | An accepted update names an existing assignment. |
| EscalasController.DuplicidadeIgnoraCulto | src/controllers/escalasController.js:340-347 | Moving a person onto a function they hold in another service is refused by the update's test, though the unique index would accept it. |
| EscalasController.Atualizar | src/controllers/escalasController.js:310-406 | Not found and status 2 refuse with nothing changed. When the person changes, an omitted `funcao_id` is an internal error and an active row of that person in the same function (in any service) is a duplicate, both with nothing changed. A key collision in the index is an internal error with nothing changed. Otherwise only this row becomes the partial update. |
| EscalasController.Excluir | src/controllers/escalasController.js:408-441 | A missing row or a confirmed row (status 2) is refused with nothing changed. Otherwise only that row is soft-deleted. |
| EscalasController.MesmaChavePreservaIndice | src/models/Escala.js:120-125 | A write that keeps a row's key leaves the unique index intact. |
| EscalasController.StatusComSeed | src/config/seed.js:209-214 | With the seeded table, 'Confirmada' and 'Cancelada' are not found, so the statuses written are 2 and 4. 'Pendente' is row 1. |
| EscalasController.Confirmar | src/controllers/escalasController.js:446-497 | A missing row is refused. Otherwise only that row's status becomes the confirmed status, and `confirmado_em` is untouched. |
| EscalasController.ConfirmarDuasVezes | src/controllers/escalasController.js:446-497 | Confirming twice succeeds both times and leaves the table as one confirmation does. |
| EscalasController.NotaDeCancelamentoForma | src/controllers/escalasController.js:518 | For a reason with visible text, the note is the old notes without leading blanks, a newline, "Cancelada: " and the reason without trailing blanks. With blank old notes it is the "Cancelada: " line alone. |
| EscalasController.NotaComObservacoes | src/controllers/escalasController.js:518 | With visible old notes and reason, trimming removes only the outer blanks. |
| EscalasController.NotaSemObservacoes | src/controllers/escalasController.js:518 | With blank old notes, the note starts at "Cancelada: ". |
| EscalasController.Cancelar | src/controllers/escalasController.js:499-551 | A missing row is refused. Otherwise that row gets the cancelled status and, with a truthy reason, the note, and nothing else changes. The answer is then an internal error, because the reload throws. |
| EscalasController.CancelarLiberaDuplicidade | src/controllers/escalasController.js:512-518 | With the seeded table a cancelled row has status 4, so the creation guard no longer counts it as a duplicate, while its key stays held in the unique index. |
| PerfisController.CardinalidadeDosIds | src/controllers/perfisController.js:192-196 | A list names at most as many distinct ids as it is long, and exactly as many when it repeats none. |
| PerfisController.PermissoesConferemIff | src/controllers/perfisController.js:192-196 | The count test passes exactly when the ids are distinct and each names an existing permission. |
| PerfisController.Criar | src/controllers/perfisController.js:143-252 | Missing fields, a name held by a live profile and a level outside 1..10 each refuse with nothing changed. A row the database refuses (an invalid row, or the name of a deleted profile, which the unique index still holds) is an internal error with nothing changed. Otherwise the profile is stored. An unmatched permission list then refuses, but the new profile stays without associations. A matched list is associated. |
| PerfisController.Atualizar | src/controllers/perfisController.js:254-380 | Not found, a changed name held by another live profile and a truthy level outside 1..10 each refuse with nothing changed. The merged row then goes through `GravarAtualizacao`: a row the database refuses is an internal error with nothing changed; otherwise it is written, an absent permission list keeps the associations, an empty or matched list replaces them, and an unmatched one refuses after the row was written. |
| PerfisController.GravarAtualizacao | src/controllers/perfisController.js:308-332 | A row the database refuses is an internal error with nothing written. Otherwise the row is stored. An absent list keeps the associations, an empty or matched list replaces them, and an unmatched one refuses after the row was written. |
| PerfisController.RenomearPreservaUnicidade | src/controllers/perfisController.js:283-297 | Renaming a profile to its own name or to a name no other profile holds keeps names unique. |
| PerfisController.Excluir | src/controllers/perfisController.js:382-441 | A missing profile is refused. A profile still used by live users is refused with their count. Otherwise only that profile is soft-deleted and its name stays reserved. |
| PerfisController.ToggleAtivo | src/controllers/perfisController.js:446-491 | A missing profile is refused. Otherwise only `ativo` of that profile flips, and the new value is returned. |
| PerfisController.ToggleDuasVezes | src/controllers/perfisController.js:462 | Toggling twice restores the profile table. |
| PerfisController.GrupoPertence | src/controllers/perfisController.js:501-508 | A module's group holds exactly the permissions of that module (`Geral` when none). |
| PerfisController.AgruparPorModulo | src/controllers/perfisController.js:501-508 | The keys are exactly the modules present. Each group lists that module's permissions in input order. Every permission is in its module's group and only there. |
| PerfisController.GrupoVazio | src/controllers/perfisController.js:501-508 | A module no permission has gets an empty group. |
| PerfisController.GrupoPorModulos | src/controllers/perfisController.js:501-508 | When each group is the module's group, every permission is found under its module and nowhere else. |
| UsuariosController.Criar | src/controllers/usuariosController.js:149-260 | Missing fields, an e-mail held by a live user, an unknown profile and an unknown truthy person each refuse, in that order, with nothing changed. An e-mail the `isEmail` validator refuses, or the e-mail of a deleted user (still in the unique index), is an internal error with nothing changed. Otherwise a clean account, active unless `ativo` is sent and unverified unless `email_verificado` is sent, is stored at a fresh id. |
| UsuariosController.RecusaAtualizar | src/controllers/usuariosController.js:276-331 | An accepted update names an existing user. |
| UsuariosController.AtualizadoSemMudanca | src/controllers/usuariosController.js:334-340 | An update that sends nothing, or sends the row's own values, leaves the row as it was. |
| UsuariosController.AtualizadoIdempotente | src/controllers/usuariosController.js:334-340 | Sending the same update twice gives the same row as sending it once. |
| UsuariosController.Atualizar | src/controllers/usuariosController.js:265-392 | Not found, a changed e-mail held by another live user, and a changed unknown profile or person each refuse, in that order, with nothing changed. An e-mail the database refuses is an internal error with nothing changed. Otherwise exactly this user becomes the merged row. |
| UsuariosController.Gravar | src/controllers/usuariosController.js:334-340 | An e-mail the database refuses is an internal error with nothing changed. Otherwise exactly this user becomes the new row. |
| UsuariosController.Excluir | src/controllers/usuariosController.js:512-567 | A missing user, or the acting user themself, is refused with nothing changed. Otherwise only that user is soft-deleted and the e-mail stays reserved. |
| UsuariosController.ToggleAtivo | src/controllers/usuariosController.js:572-622 | A missing user is refused. An active acting user cannot deactivate themself. Otherwise only `ativo` flips, and the new value is returned. |
| PessoasController.RecusaCampos | src/controllers/pessoasController.js:286-317 | The fields pass exactly when the name and phone are truthy, no other live person holds the phone, and the e-mail is falsy. With those first checks passed, a truthy e-mail is an internal error. |
| PessoasController.GravarPreservaUnicidade | src/controllers/pessoasController.js:293-303 | Storing a row whose phone no other live person holds keeps phones unique. |
| PessoasController.Criar | src/controllers/pessoasController.js:272-367 | Missing name or phone and a phone in use each refuse with nothing changed. A truthy e-mail then fails its lookup, an internal error with nothing changed. A row the validators refuse is an internal error. Otherwise the person, without an e-mail, is stored at a fresh id. |
| PessoasController.RecusaAtualizar | src/controllers/pessoasController.js:410-457 | An accepted update names an existing person and sends a name and a phone. |
| PessoasController.AtualizacaoMinimaPreserva | src/controllers/pessoasController.js:461-470 | Sending only the stored name and phone leaves the person as it was. |
| PessoasController.Atualizar | src/controllers/pessoasController.js:396-510 | Not found is checked before the required fields, then a phone held by another person; each refuses with nothing changed. A truthy e-mail then fails its lookup, an internal error with nothing changed. A row the validators refuse is an internal error. Otherwise only this person becomes the updated row, and the e-mail is not stored. |
| PessoasController.Excluir | src/controllers/pessoasController.js:533-580 | A missing person, or one linked to a live user, is refused with nothing changed. Otherwise only that person is soft-deleted. |
| FuncoesController.RecusaCriar | src/controllers/funcoesController.js:190-204 | Creation is accepted exactly when the name is truthy and no live function holds it. |
| FuncoesController.GravarPreservaNomes | src/models/Funcao.js:89-96 | Storing a row whose name no other live function holds keeps live names unique. |
| FuncoesController.Criar | src/controllers/funcoesController.js:185-236 | A refusal leaves everything unchanged. A row the validators refuse is an internal error. Otherwise an active function with `requer_confirmacao` true is stored at a fresh id. |
| FuncoesController.RecusaAtualizar | src/controllers/funcoesController.js:270-292 | An accepted update names an existing function. |
| FuncoesController.ManterNomeAceito | src/controllers/funcoesController.js:279 | Sending the function's own name is never refused. |
| FuncoesController.AtualizacaoIdempotente | src/controllers/funcoesController.js:295-301 | Sending the same update twice gives the same row as sending it once. |
| FuncoesController.AtualizacaoPreservaNomes | src/controllers/funcoesController.js:279-301 | An update that passed the name guard leaves no name shared by two live functions. |
| FuncoesController.Atualizar | src/controllers/funcoesController.js:265-320 | Not found and a changed name held by another live function refuse with nothing changed. A row the validators refuse is an internal error with nothing changed. Otherwise only this function is updated, and its `ativo` is kept whatever `ativa` says. |
| AtividadesController.SemAtividadeLimpa | src/controllers/atividadesController.js:495 | After deleting an activity's links, it has none and every other activity keeps its links. |
| AtividadesController.LigacoesDaAtividade | src/controllers/atividadesController.js:497-501 | The new links all name the activity, one per target, in order. |
| AtividadesController.Substituicao | src/controllers/atividadesController.js:495-511 | After replacing the links, the activity has exactly the sent targets, and every other activity keeps its links. |
| AtividadesController.RecusaCriar | src/controllers/atividadesController.js:319-342 | Creation is accepted exactly when the name, type and service are truthy and the type and service exist. |
| AtividadesController.Criar | src/controllers/atividadesController.js:304-430 | Each guard refuses with its error, in order, and the method writes nothing. Past the guards, the values `create` receives lack the NOT NULL title, order and creator, so the table refuses them and the answer is an internal error. |
| AtividadesController.AtualizacaoVaziaPreserva | src/controllers/atividadesController.js:483-493 | An update that sends none of the activity's own columns leaves the row as it was. |
| AtividadesController.Atualizar | src/controllers/atividadesController.js:459-563 | A missing activity is refused. Otherwise the row is merged on its columns, and its person and department links are replaced by exactly the sent lists (empty when absent). The answer is then an internal error, because the reload throws. |
| AtividadesController.Excluir | src/controllers/atividadesController.js:586-615 | A missing activity is refused. Otherwise every link of it is removed, then the activity itself. |
| AvaliacoesController.ErroDoItem | src/controllers/avaliacoesController.js:277-301 | An item passes exactly when it has a truthy criterion that exists and a truthy mark within 1..5. |
| AvaliacoesController.PrimeiroErroNoneIff | src/controllers/avaliacoesController.js:276-301 | The loop finds no error exactly when every item passes. |
| AvaliacoesController.PrimeiroErroPosicao | src/controllers/avaliacoesController.js:276-301 | An error the loop reports is the error of some item, and every earlier item passes. |
| AvaliacoesController.ValidarCriterios | src/controllers/avaliacoesController.js:276-301 | The loop returns the error of the first failing item, or none. |
| AvaliacoesController.NotasDosItens | src/controllers/avaliacoesController.js:312-316 | There is one mark row per item, in order, naming the evaluation, the item's criterion and its mark (1..5 for accepted items). |
| AvaliacoesController.Recusa | src/controllers/avaliacoesController.js:260-301 | A submission is accepted exactly when it has a visit date, at least one item, and every item passes. |
| AvaliacoesController.CriarPublica | src/controllers/avaliacoesController.js:247-361 | A refusal leaves everything unchanged. A repeated criterion breaks the index, and the rollback leaves everything unchanged. Otherwise the evaluation is stored at a fresh id and its marks are appended. |
| AvaliacoesController.GravarNotasPreservaIndice | src/models/AvaliacaoCriterio.js:14 | Appending the marks of a fresh evaluation with distinct criteria keeps (avaliacao, criterio) unique. |
| ConfiguracaoController.EmailIff | src/controllers/configuracaoController.js:358-361 | The e-mail regular expression accepts exactly the strings with no whitespace and one '@', not first, followed later by a '.' with a character on each side. |
| ConfiguracaoController.EmailParaForma | src/controllers/configuracaoController.js:359 | Every match of the regular expression has that shape. |
| ConfiguracaoController.FormaParaEmail | src/controllers/configuracaoController.js:359 | Every string of that shape matches the regular expression. |
| ConfiguracaoController.Recusa | src/controllers/configuracaoController.js:121-133 | A body is accepted exactly when a truthy `nome_igreja` is a string with a non-space character, and a truthy `email` is a string of the valid shape. |
| ConfiguracaoController.NomeVazioAceito | src/controllers/configuracaoController.js:121 | An empty `nome_igreja` is falsy, so the body is accepted. |
| ConfiguracaoController.Mesclar | src/controllers/configuracaoController.js:137-140 | The merge has the keys of both objects. Every body key takes the body's value whole, and every other key keeps its value. An empty body changes nothing. |
| ConfiguracaoController.MesclarIdempotente | src/controllers/configuracaoController.js:137-140 | Merging the same body twice equals merging it once. |
| ConfiguracaoController.ConfigStore.constructor | src/controllers/configuracaoController.js:5-32 | The settings start as the initial object. |
| ConfiguracaoController.ConfigStore.Atualizar | src/controllers/configuracaoController.js:117-155 | A refused body leaves the settings unchanged. An accepted one replaces them with the merge, which is also returned. |
| ConfiguracaoController.FiltrarNivel | src/controllers/configuracaoController.js:335-337 | The filter keeps exactly the entries of the given level, and no others. |
| ConfiguracaoController.FiltrarPreservaOrdem | src/controllers/configuracaoController.js:335-337 | The filter keeps the entries' order. |
| ConfiguracaoController.Fatiar | src/controllers/configuracaoController.js:340 | `slice(0, n)` is a prefix: all of the list for n at least its length, n entries for 0 ≤ n, length plus n (at least 0) for a negative n, and nothing for NaN. |
| ConfiguracaoController.ObterLogs | src/controllers/configuracaoController.js:300-346 | The listing has at most three entries, and with a truthy level all of them have that level. An omitted `limit` is 100, so it keeps every selected entry. |
| ConfiguracaoController.ObterLogsOrdenado | src/controllers/configuracaoController.js:330-340 | The listing is an ordered selection of the simulated entries. |

## Left out

- Password hashing, JWT signing and verification, and the login flow: bcrypt and `jwt.verify` are foreign code. The token's outcome is a parameter of `Auth.Authenticate`. A lookup error inside the JWT `try`, which the code reports as an invalid token, is not modelled.
- The current time: `new Date()` and `Date.now()` are an `Instant` parameter (`now`, `agora`), and time zones are ignored.
- Logging and audit records: `console.*` and `auditLogger.log`. The content of the reloads that build a response is not modelled either. A reload that throws (an undefined alias or a missing column) is modelled, as an internal error after the writes.
- HTTP: status codes and messages. Each response is modelled as an error constructor, or as the written id.
- The listing, detail and statistics endpoints, beyond the pagination arithmetic in `Paginacao`. Also out: `alterarSenha`, `resetarSenha`, `gerarBackup`, `statusSistema` and `obter`, which only read or touch credentials.
- Sequelize itself: SQL, foreign keys, `Promise.all` ordering and column types. String length limits (`STRING(n)`) and the `isDate` validator are not modelled. A foreign-key failure is not an outcome.
- `isEmail` on `usuarios.email`: the library's format test is a boolean parameter (`formatoValido`).
- `parseInt`: page, limit and `limit` of the log listing are already numbers. NaN is `None` in `ConfiguracaoController.Fatiar` only. A page size of 0 is excluded by `Paginacao.TotalPaginas`, which requires a positive limit.
- `criarAtividades`: an `id` key inside an item would be inserted as given. The model's items carry column values only, and every row gets a fresh id.
- `atividades.atualizar` does not re-check the type or the service. The model follows the code and does not check them either.
- The link tables of activities: their unique index includes a `papel` column that the controller never sets. A NULL never conflicts, so a repeated target is stored twice, as the model does.
- `ConfiguracaoController.Recusa`: a truthy array `email` is refused as invalid. JavaScript would test its comma-joined text, so a one-element array holding a valid address would pass.
- `ConfiguracaoController.ObterLogs`: the timestamps are relative to the `agora` parameter, clamped at 0. The `data_inicio` and `data_fim` query parameters are read but never used by the code.
- `AvaliacoesController.CriarPublica`: a rolled-back insert does not consume an evaluation id. A database sequence would.
- `getTempoCheckIn` and other read-only helpers of the models that the controllers do not call.
- Concurrency: requests run one at a time. The check-then-insert races of the guards are not modelled.
- `CultosController.RecusaAtualizar`, `CultosController.RecusaExcluir`, `EscalasController.RecusaAtualizar`, `UsuariosController.RecusaAtualizar`, `FuncoesController.RecusaAtualizar`, `PessoasController.RecusaAtualizar`: their own ensures only say that acceptance implies the row exists. The full guard order is stated by the method that uses each of them.
