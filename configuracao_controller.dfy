/**
 * The configuration controller: the settings live in one module-level object
 * in memory, replaced on each accepted update by a shallow merge with the
 * request body. Also the simulated log listing and its filter.
 */
module ConfiguracaoController {
  import opened Wrappers
  import opened Js

  /** A JSON value as a request body carries it; numbers are integers here. */
  datatype JsonValue =
    | JNull
    | JBool(b: bool)
    | JNum(n: int)
    | JStr(s: string)
    | JArr(items: seq<JsonValue>)
    | JObj(fields: map<string, JsonValue>)

  /** JavaScript truthiness of a JSON value: arrays and objects are always truthy. */
  predicate Truthy(v: JsonValue) {
    match v
    case JNull => false
    case JBool(b) => b
    case JNum(n) => n != 0
    case JStr(s) => s != ""
    case _ => true
  }

  datatype ConfigErro = NomeIgrejaObrigatorio | EmailInvalido | ErroInterno

  predicate SemEspacoNemArroba(x: string) {
    forall i :: 0 <= i < |x| ==> !IsSpace(x[i]) && x[i] != '@'
  }

  /**
   * `/^[^\s@]+@[^\s@]+\.[^\s@]+$/`: a non-empty run of characters that are
   * neither whitespace nor '@', then '@', then another such run, '.', and a
   * last such run.
   */
  predicate IsValidEmail(s: string) {
    exists i, j :: 0 < i && i + 1 < j && j + 1 < |s| && s[i] == '@' && s[j] == '.'
      && SemEspacoNemArroba(s[..i]) && SemEspacoNemArroba(s[i + 1..j]) && SemEspacoNemArroba(s[j + 1..])
  }

  /**
   * The same language described without the regular expression: no
   * whitespace, exactly one '@' and not in first position, and a '.'
   * after it with at least one character on each side.
   */
  predicate FormaDeEmail(s: string) {
    (forall k :: 0 <= k < |s| ==> !IsSpace(s[k]))
    && exists p :: 0 < p < |s| && s[p] == '@' && (forall k :: 0 <= k < |s| && k != p ==> s[k] != '@')
                   && exists q :: p + 1 < q < |s| - 1 && s[q] == '.'
  }

  lemma EmailParaForma(s: string)
    requires IsValidEmail(s)
    ensures FormaDeEmail(s)
  {
    var i, j :| 0 < i && i + 1 < j && j + 1 < |s| && s[i] == '@' && s[j] == '.'
      && SemEspacoNemArroba(s[..i]) && SemEspacoNemArroba(s[i + 1..j]) && SemEspacoNemArroba(s[j + 1..]);
    forall k | 0 <= k < |s| && k != i
      ensures !IsSpace(s[k]) && s[k] != '@'
    {
      if k < i {
        assert s[k] == s[..i][k];
      } else if k < j {
        assert s[k] == s[i + 1..j][k - i - 1];
      } else if k > j {
        assert s[k] == s[j + 1..][k - j - 1];
      }
    }
    assert forall k :: 0 <= k < |s| && k != i ==> s[k] != '@';
    assert exists q :: i + 1 < q < |s| - 1 && s[q] == '.';
  }

  lemma FormaParaEmail(s: string)
    requires FormaDeEmail(s)
    ensures IsValidEmail(s)
  {
    var p :| 0 < p < |s| && s[p] == '@' && (forall k :: 0 <= k < |s| && k != p ==> s[k] != '@')
             && exists q :: p + 1 < q < |s| - 1 && s[q] == '.';
    var q :| p + 1 < q < |s| - 1 && s[q] == '.';
    var a, b, c := s[..p], s[p + 1..q], s[q + 1..];
    forall k | 0 <= k < |a|
      ensures !IsSpace(a[k]) && a[k] != '@'
    {
      assert a[k] == s[k];
    }
    forall k | 0 <= k < |b|
      ensures !IsSpace(b[k]) && b[k] != '@'
    {
      assert b[k] == s[p + 1 + k];
    }
    forall k | 0 <= k < |c|
      ensures !IsSpace(c[k]) && c[k] != '@'
    {
      assert c[k] == s[q + 1 + k];
    }
    assert SemEspacoNemArroba(a) && SemEspacoNemArroba(b) && SemEspacoNemArroba(c);
  }

  /** The regular expression accepts exactly the strings of that shape. */
  lemma EmailIff(s: string)
    ensures IsValidEmail(s) <==> FormaDeEmail(s)
  {
    if IsValidEmail(s) {
      EmailParaForma(s);
    }
    if FormaDeEmail(s) {
      FormaParaEmail(s);
    }
  }

  /**
   * The first check of `atualizar` that refuses the body, if any. A truthy
   * `nome_igreja` that is not a string has no `trim`, which throws; a truthy
   * `email` that is not a string never matches.
   */
  function Recusa(body: map<string, JsonValue>): (r: Option<ConfigErro>)
    ensures r.None? <==>
      ("nome_igreja" in body && Truthy(body["nome_igreja"]) ==>
         body["nome_igreja"].JStr? && exists i :: 0 <= i < |body["nome_igreja"].s| && !IsSpace(body["nome_igreja"].s[i]))
      && ("email" in body && Truthy(body["email"]) ==> body["email"].JStr? && FormaDeEmail(body["email"].s))
  {
    if "nome_igreja" in body && Truthy(body["nome_igreja"]) && !body["nome_igreja"].JStr? then Some(ErroInterno)
    else if "nome_igreja" in body && Truthy(body["nome_igreja"]) && (TrimBlankIff(body["nome_igreja"].s); Trim(body["nome_igreja"].s) == "") then
      Some(NomeIgrejaObrigatorio)
    else if "email" in body && Truthy(body["email"]) && !(body["email"].JStr? && (EmailIff(body["email"].s); IsValidEmail(body["email"].s))) then
      Some(EmailInvalido)
    else None
  }

  /** An empty `nome_igreja` is falsy, so the whitespace test never sees it. */
  lemma NomeVazioAceito()
    ensures Recusa(map["nome_igreja" := JStr("")]) == None
  {
  }

  /** `{ ...configuracoes, ...body }`: every body key wins, with its value replaced whole; every other key keeps its value. */
  function Mesclar(c: map<string, JsonValue>, body: map<string, JsonValue>): (r: map<string, JsonValue>)
    ensures r.Keys == c.Keys + body.Keys
    ensures forall k :: k in body ==> r[k] == body[k]
    ensures forall k :: k in c && k !in body ==> r[k] == c[k]
    ensures body == map[] ==> r == c
  {
    c + body
  }

  lemma MesclarIdempotente(c: map<string, JsonValue>, body: map<string, JsonValue>)
    ensures Mesclar(Mesclar(c, body), body) == Mesclar(c, body)
  {
  }

  /** The values the process starts with. */
  function Iniciais(): map<string, JsonValue> {
    map[
      "nome_igreja" := JStr("Assembleia de Deus de Piedade"),
      "endereco" := JStr("Rua Principal, 123 - Piedade, SP"),
      "telefone" := JStr("(11) 99999-9999"),
      "email" := JStr("contato@adpiedade.com"),
      "site" := JStr("https://adpiedade.com"),
      "pastor_principal" := JStr("Pastor João Silva"),
      "horarios_cultos" := JObj(map[
        "domingo_manha" := JStr("09:00"),
        "domingo_noite" := JStr("19:00"),
        "quarta_feira" := JStr("19:30"),
        "sexta_feira" := JStr("19:30")]),
      "configuracoes_sistema" := JObj(map[
        "permitir_autoconfirmacao_escalas" := JBool(false),
        "dias_antecedencia_escala" := JNum(7),
        "notificar_escalas_por_email" := JBool(true),
        "notificar_escalas_por_sms" := JBool(false),
        "backup_automatico" := JBool(true),
        "manutencao_programada" := JBool(false)]),
      "redes_sociais" := JObj(map[
        "facebook" := JStr("https://facebook.com/adpiedade"),
        "instagram" := JStr("@adpiedade"),
        "youtube" := JStr("https://youtube.com/adpiedade"),
        "whatsapp" := JStr("5511999999999")])
    ]
  }

  /** The module-level `configuracoes` object. */
  class ConfigStore {
    var configuracoes: map<string, JsonValue>

    constructor ()
      ensures configuracoes == Iniciais()
    {
      configuracoes := Iniciais();
    }

    /** `atualizar`: a refused body leaves the settings as they were; an accepted one is merged in. */
    method Atualizar(body: map<string, JsonValue>) returns (r: Result<map<string, JsonValue>, ConfigErro>)
      modifies this
      ensures Recusa(body).Some? ==> r == Err(Recusa(body).value) && configuracoes == old(configuracoes)
      ensures Recusa(body).None? ==> configuracoes == Mesclar(old(configuracoes), body) && r == Ok(configuracoes)
    {
      if "nome_igreja" in body && Truthy(body["nome_igreja"]) {
        if !body["nome_igreja"].JStr? {
          return Err(ErroInterno);
        }
        if Trim(body["nome_igreja"].s) == "" {
          return Err(NomeIgrejaObrigatorio);
        }
      }
      if "email" in body && Truthy(body["email"]) && !(body["email"].JStr? && IsValidEmail(body["email"].s)) {
        return Err(EmailInvalido);
      }
      configuracoes := Mesclar(configuracoes, body);
      r := Ok(configuracoes);
    }
  }

  /** One entry of the simulated log. */
  datatype LogEntry = LogEntry(id: nat, timestamp: Instant, nivel: string, mensagem: string, usuario: string, ip: string)

  /** The three simulated entries, stamped relative to the current instant. */
  function LogsSimulados(agora: Instant): seq<LogEntry> {
    [ LogEntry(1, agora, "info", "Sistema iniciado com sucesso", "sistema", "127.0.0.1"),
      LogEntry(2, if agora >= 3600000 then agora - 3600000 else 0, "warning", "Tentativa de login com credenciais inválidas", "admin@adpiedade.com", "192.168.1.100"),
      LogEntry(3, if agora >= 7200000 then agora - 7200000 else 0, "info", "Backup automático executado", "sistema", "127.0.0.1") ]
  }

  /** `logs.filter(log => log.nivel === nivel)`. */
  function FiltrarNivel(logs: seq<LogEntry>, nivel: string): (r: seq<LogEntry>)
    ensures |r| <= |logs|
    ensures forall i :: 0 <= i < |r| ==> r[i].nivel == nivel
    ensures forall x :: x in logs && x.nivel == nivel <==> x in r
    decreases |logs|
  {
    if logs == [] then []
    else (if logs[0].nivel == nivel then [logs[0]] else []) + FiltrarNivel(logs[1..], nivel)
  }

  /** `a` is `b` with some entries removed, the rest in their order. */
  predicate Subsequencia(a: seq<LogEntry>, b: seq<LogEntry>)
    decreases |b|
  {
    if a == [] then true
    else if b == [] then false
    else if a[0] == b[0] then Subsequencia(a[1..], b[1..])
    else Subsequencia(a, b[1..])
  }

  /** The filter keeps the original order. */
  lemma {:induction false} FiltrarPreservaOrdem(logs: seq<LogEntry>, nivel: string)
    ensures Subsequencia(FiltrarNivel(logs, nivel), logs)
    decreases |logs|
  {
    if logs != [] {
      FiltrarPreservaOrdem(logs[1..], nivel);
      var r := FiltrarNivel(logs, nivel);
      if logs[0].nivel == nivel {
        assert r[0] == logs[0] && r[1..] == FiltrarNivel(logs[1..], nivel);
      } else {
        assert r == FiltrarNivel(logs[1..], nivel);
      }
    }
  }

  /**
   * `slice(0, parseInt(limit))`: a negative end counts from the back, and
   * `NaN` (`None` here) keeps nothing.
   */
  function Fatiar(logs: seq<LogEntry>, fim: Option<int>): (r: seq<LogEntry>)
    ensures |r| <= |logs| && r == logs[..|r|]
    ensures fim.Some? && fim.value >= |logs| ==> r == logs
    ensures fim.Some? && 0 <= fim.value <= |logs| ==> |r| == fim.value
    ensures fim.Some? && fim.value < 0 ==> |r| == if |logs| + fim.value >= 0 then |logs| + fim.value else 0
    ensures fim.None? ==> r == []
  {
    if fim.None? then []
    else if fim.value >= |logs| then logs
    else if fim.value >= 0 then logs[..fim.value]
    else if |logs| + fim.value >= 0 then logs[..|logs| + fim.value]
    else []
  }

  /** The default of `limit` when the query leaves it out. */
  const LimitePadrao: int := 100

  /**
   * `obterLogs`: the entries of the given level (all when none is given), in
   * their order, cut at the limit; `limite` is the parsed `limit` when sent.
   */
  function ObterLogs(agora: Instant, nivel: Option<string>, limite: Given<Option<int>>): (r: seq<LogEntry>)
    ensures |r| <= 3
    ensures StrTruthy(nivel) ==> forall i :: 0 <= i < |r| ==> r[i].nivel == nivel.value
    ensures limite.Omitted? ==> r == if StrTruthy(nivel) then FiltrarNivel(LogsSimulados(agora), nivel.value) else LogsSimulados(agora)
  {
    var logs := LogsSimulados(agora);
    Fatiar(if StrTruthy(nivel) then FiltrarNivel(logs, nivel.value) else logs, IfSent(limite, Some(LimitePadrao)))
  }

  /** The listing is an ordered selection of the simulated entries. */
  lemma ObterLogsOrdenado(agora: Instant, nivel: Option<string>, limite: Given<Option<int>>)
    ensures Subsequencia(ObterLogs(agora, nivel, limite), LogsSimulados(agora))
  {
    var logs := LogsSimulados(agora);
    var f := if StrTruthy(nivel) then FiltrarNivel(logs, nivel.value) else logs;
    if StrTruthy(nivel) {
      FiltrarPreservaOrdem(logs, nivel.value);
    } else {
      SubsequenciaReflexiva(logs);
    }
    PrefixoDeSubsequencia(f, logs, |ObterLogs(agora, nivel, limite)|);
  }

  lemma {:induction false} SubsequenciaReflexiva(b: seq<LogEntry>)
    ensures Subsequencia(b, b)
    decreases |b|
  {
    if b != [] {
      SubsequenciaReflexiva(b[1..]);
    }
  }

  lemma {:induction false} PrefixoDeSubsequencia(a: seq<LogEntry>, b: seq<LogEntry>, n: nat)
    requires n <= |a| && Subsequencia(a, b)
    ensures Subsequencia(a[..n], b)
    decreases |b|
  {
    if n > 0 {
      if b == [] {
        assert false;
      }
      if a[0] == b[0] {
        assert a[..n][1..] == a[1..][..n - 1];
        PrefixoDeSubsequencia(a[1..], b[1..], n - 1);
      } else {
        PrefixoDeSubsequencia(a, b[1..], n);
      }
    }
  }
}
