/**
 * People (pessoas): the stored columns the controllers touch, the column
 * validators, and the helpers `getIdade` and `getNomeAbreviado`.
 */
module PessoaModel {
  import opened Wrappers
  import opened Js

  /** A calendar date as `getFullYear`, `getMonth` and `getDate` read it. */
  datatype Data = Data(ano: int, mes: nat, dia: nat)

  /** Calendar order, comparing year, then month, then day. */
  predicate Antes(a: Data, b: Data) {
    a.ano < b.ano || (a.ano == b.ano && (a.mes < b.mes || (a.mes == b.mes && a.dia < b.dia)))
  }

  /** A stored person; the table has no `email` column. */
  datatype PessoaRow = PessoaRow(
    nomeCompleto: string,
    telefone: Option<string>,
    whatsapp: Option<string>,
    dataNascimento: Option<Data>,
    endereco: Option<string>,
    cargoEclesiasticoId: Option<nat>,
    departamentoId: Option<nat>,
    membro: bool,
    ativo: bool,
    observacoes: Option<string>)

  /** `nome_completo` is non-empty and between 2 and 255 characters long. */
  predicate NomeValido(n: string) {
    2 <= |n| <= 255
  }

  /** One character of the class `[\d\s\(\)\-\+]`. */
  predicate CaractereDeTelefone(c: char) {
    ('0' <= c <= '9') || IsSpace(c) || c == '(' || c == ')' || c == '-' || c == '+'
  }

  /** `/^[\d\s\(\)\-\+]+$/.test(s)`: one or more characters, all from the class. */
  function CombinaTelefone(s: string): (r: bool)
    ensures r <==> |s| > 0 && forall i :: 0 <= i < |s| ==> CaractereDeTelefone(s[i])
    decreases |s|
  {
    |s| > 0 && CaractereDeTelefone(s[0]) && (|s| == 1 || CombinaTelefone(s[1..]))
  }

  /** The `is` validator of `telefone` and `whatsapp`: `NULL` is allowed, any text must match. */
  predicate TelefoneColunaValida(t: Option<string>) {
    t.None? || CombinaTelefone(t.value)
  }

  /** `isBefore`: a birth date lies before the date the model was loaded. */
  predicate NascimentoValido(d: Option<Data>, carga: Data) {
    d.None? || Antes(d.value, carga)
  }

  predicate PessoaValida(p: PessoaRow, carga: Data) {
    NomeValido(p.nomeCompleto) && TelefoneColunaValida(p.telefone) && TelefoneColunaValida(p.whatsapp)
    && NascimentoValido(p.dataNascimento, carga)
  }

  /**
   * `getIdade()`: no birth date gives `null`; otherwise the difference of the
   * years, one less while this year's birthday is still ahead.
   */
  function GetIdade(nascimento: Option<Data>, hoje: Data): (r: Option<int>)
    ensures r.None? <==> nascimento.None?
    ensures r.Some? && !Antes(hoje, nascimento.value) ==> r.value >= 0
  {
    match nascimento
    case None => None
    case Some(n) =>
      var idade := hoje.ano - n.ano;
      if hoje.mes < n.mes || (hoje.mes == n.mes && hoje.dia < n.dia) then Some(idade - 1) else Some(idade)
  }

  /**
   * On the birthday the age is the difference of the years; on any earlier
   * day of that year it is one less, so the age rises by exactly one on the
   * birthday.
   */
  lemma IdadeNoAniversario(n: Data, hoje: Data)
    requires hoje.ano >= n.ano
    ensures hoje.mes == n.mes && hoje.dia == n.dia ==> GetIdade(Some(n), hoje) == Some(hoje.ano - n.ano)
    ensures Antes(Data(hoje.ano, hoje.mes, hoje.dia), Data(hoje.ano, n.mes, n.dia)) ==> GetIdade(Some(n), hoje) == Some(hoje.ano - n.ano - 1)
  {
  }

  /** Age never decreases as the current date moves forward. */
  lemma IdadeMonotona(n: Data, hoje: Data, depois: Data)
    requires !Antes(depois, hoje)
    ensures GetIdade(Some(n), hoje).value <= GetIdade(Some(n), depois).value
  {
  }

  /**
   * `getNomeAbreviado()`: names of at most two space-separated parts are
   * kept; longer ones become the first and the last part joined by a space.
   */
  function GetNomeAbreviado(nome: string): (r: string)
    ensures |SplitOn(r, ' ')| <= 2
    ensures SplitOn(r, ' ')[0] == SplitOn(nome, ' ')[0]
    ensures Last(SplitOn(r, ' ')) == Last(SplitOn(nome, ' '))
    ensures |SplitOn(nome, ' ')| <= 2 ==> r == nome
    ensures |SplitOn(nome, ' ')| > 2 ==> |SplitOn(r, ' ')| == 2
  {
    var partes := SplitOn(nome, ' ');
    if |partes| <= 2 then nome
    else
      var primeiro := partes[0];
      var ultimo := partes[|partes| - 1];
      SplitOnPrefix(primeiro, ' ', ultimo);
      SplitOnNoSeparator(ultimo, ' ');
      primeiro + " " + ultimo
  }

  function Last(parts: seq<string>): string
    requires |parts| > 0
  {
    parts[|parts| - 1]
  }

  /** Abbreviating an abbreviated name changes nothing. */
  lemma NomeAbreviadoIdempotente(nome: string)
    ensures GetNomeAbreviado(GetNomeAbreviado(nome)) == GetNomeAbreviado(nome)
  {
  }
}
