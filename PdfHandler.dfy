/**
 * The event handler of main.py: which created files are processed, how a
 * slip's CNPJ finds its company, where that company's ledger lives, and
 * where `processar_pdf` sends a file. File moves, the ledger's creation and
 * the extraction are steps whose outcome is an input here.
 */
module PdfHandler {
  import opened Wrappers
  import opened Text
  import opened Models
  import opened PdfPatterns

  // ---------------------------------------------------------------------
  // `identificar_empresa` (lines 61-64) and `carregar_empresas` (line 33)
  // ---------------------------------------------------------------------

  /** `''.join(filter(str.isdigit, t))`, over the ASCII digits. */
  function ApenasDigitos(t: string): (r: string)
    ensures |r| <= |t|
    ensures forall i :: 0 <= i < |r| ==> IsDigit(r[i])
  {
    if t == [] then []
    else (if IsDigit(t[0]) then [t[0]] else []) + ApenasDigitos(t[1..])
  }

  lemma {:induction false} ApenasDigitosAppend(a: string, b: string)
    ensures ApenasDigitos(a + b) == ApenasDigitos(a) + ApenasDigitos(b)
  {
    if a == [] {
      assert a + b == b;
    } else {
      assert (a + b)[0] == a[0];
      assert (a + b)[1..] == a[1..] + b;
      ApenasDigitosAppend(a[1..], b);
    }
  }

  /** Lemma: a single character is kept exactly when it is a digit. */
  lemma ApenasDigitosUnitario(c: char)
    ensures ApenasDigitos([c]) == if IsDigit(c) then [c] else []
  {
    assert [c][1..] == [];
  }

  /** Lemma: text made of digits only is kept as it is. */
  lemma {:induction false} ApenasDigitosDeDigitos(t: string)
    requires forall i :: 0 <= i < |t| ==> IsDigit(t[i])
    ensures ApenasDigitos(t) == t
  {
    if t != [] {
      ApenasDigitosDeDigitos(t[1..]);
    }
  }

  /** Lemma: keeping the digits twice is keeping them once. */
  lemma ApenasDigitosIdempotente(t: string)
    ensures ApenasDigitos(ApenasDigitos(t)) == ApenasDigitos(t)
  {
    ApenasDigitosDeDigitos(ApenasDigitos(t));
  }

  /** The fourteen digits of a CNPJ written as `NN.NNN.NNN/NNNN-NN`. */
  function DigitosDoCnpj(t: string): string
    requires |t| == |FormatoCnpj|
  {
    t[0..2] + (t[3..6] + (t[7..10] + (t[11..15] + t[16..18])))
  }

  /**
   * `identificar_empresa`: the CNPJ's digits, looked up as an exact key.
   * Neither the names nor `nomes_anteriores` of any company are consulted.
   */
  function IdentificarEmpresa(empresas: map<string, Empresa>, cnpj: string): (r: Option<Empresa>)
    ensures r.Some? <==> ApenasDigitos(cnpj) in empresas
    ensures r.Some? ==> r.value == empresas[ApenasDigitos(cnpj)]
  {
    var chave := ApenasDigitos(cnpj);
    if chave in empresas then Some(empresas[chave]) else None
  }

  lemma ApenasDigitosSplit(t: string, i: nat, j: nat)
    requires i <= j <= |t|
    ensures ApenasDigitos(t[i..]) == ApenasDigitos(t[i..j]) + ApenasDigitos(t[j..])
  {
    assert t[i..] == t[i..j] + t[j..];
    ApenasDigitosAppend(t[i..j], t[j..]);
  }

  /** The digit groups of a formatted CNPJ are kept whole and the punctuation between them goes. */
  lemma GruposDoCnpjFormatado(t: string)
    requires |t| == |FormatoCnpj| && ShapeAt(t, 0, FormatoCnpj)
    ensures ApenasDigitos(t[0..2]) == t[0..2] && ApenasDigitos(t[3..6]) == t[3..6]
    ensures ApenasDigitos(t[7..10]) == t[7..10] && ApenasDigitos(t[11..15]) == t[11..15]
    ensures ApenasDigitos(t[16..18]) == t[16..18]
    ensures ApenasDigitos(t[2..3]) == [] && ApenasDigitos(t[6..7]) == []
    ensures ApenasDigitos(t[10..11]) == [] && ApenasDigitos(t[15..16]) == []
  {
    forall k | 0 <= k < 18
      ensures if FormatoCnpj[k] == '9' then IsDigit(t[k]) else t[k] == FormatoCnpj[k]
    {
      ShapeAtChar(t, 0, FormatoCnpj, k);
    }
    assert FormatoCnpj[2] == '.' && FormatoCnpj[6] == '.' && FormatoCnpj[10] == '/' && FormatoCnpj[15] == '-';
    assert forall k :: 0 <= k < 18 && k !in {2, 6, 10, 15} ==> FormatoCnpj[k] == '9';
    GrupoDeDigitos(t, 0, 2);
    GrupoDeDigitos(t, 3, 6);
    GrupoDeDigitos(t, 7, 10);
    GrupoDeDigitos(t, 11, 15);
    GrupoDeDigitos(t, 16, 18);
  }

  /** Lemma: a stretch of digits of `t` is kept whole. */
  lemma GrupoDeDigitos(t: string, i: nat, j: nat)
    requires i <= j <= |t| && forall k :: i <= k < j ==> IsDigit(t[k])
    ensures ApenasDigitos(t[i..j]) == t[i..j]
  {
    assert forall k :: 0 <= k < j - i ==> t[i..j][k] == t[i + k];
    ApenasDigitosDeDigitos(t[i..j]);
  }

  /** Lemma: a digit group, then punctuation, then text whose digits are `rest`. */
  lemma JuntarPasso(t: string, i: nat, j: nat, k: nat, rest: string)
    requires i <= j <= k <= |t|
    requires ApenasDigitos(t[i..j]) == t[i..j] && ApenasDigitos(t[j..k]) == []
    requires ApenasDigitos(t[k..]) == rest
    ensures ApenasDigitos(t[i..]) == t[i..j] + rest
  {
    ApenasDigitosSplit(t, i, j);
    ApenasDigitosSplit(t, j, k);
  }

  /** The groups of a formatted CNPJ, joined, are its key. */
  lemma JuntarGrupos(t: string)
    requires |t| == 18
    requires ApenasDigitos(t[0..2]) == t[0..2] && ApenasDigitos(t[3..6]) == t[3..6]
    requires ApenasDigitos(t[7..10]) == t[7..10] && ApenasDigitos(t[11..15]) == t[11..15]
    requires ApenasDigitos(t[16..18]) == t[16..18]
    requires ApenasDigitos(t[2..3]) == [] && ApenasDigitos(t[6..7]) == []
    requires ApenasDigitos(t[10..11]) == [] && ApenasDigitos(t[15..16]) == []
    ensures ApenasDigitos(t) == DigitosDoCnpj(t)
  {
    assert t[16..] == t[16..18];
    JuntarPasso(t, 11, 15, 16, t[16..18]);
    JuntarPasso(t, 7, 10, 11, t[11..15] + t[16..18]);
    JuntarPasso(t, 3, 6, 7, t[7..10] + (t[11..15] + t[16..18]));
    JuntarPasso(t, 0, 2, 3, t[3..6] + (t[7..10] + (t[11..15] + t[16..18])));
    assert t[0..] == t;
  }

  /**
   * Lemma: a formatted CNPJ (as the slip prints it) and its bare fourteen
   * digits find the same company.
   */
  lemma CnpjFormatadoMesmaEmpresa(empresas: map<string, Empresa>, t: string)
    requires |t| == |FormatoCnpj| && ShapeAt(t, 0, FormatoCnpj)
    ensures ApenasDigitos(t) == DigitosDoCnpj(t)
    ensures IdentificarEmpresa(empresas, t) == IdentificarEmpresa(empresas, DigitosDoCnpj(t))
  {
    ChaveDoCnpjFormatado(t);
    var d := DigitosDoCnpj(t);
    ApenasDigitosIdempotente(t);
    assert ApenasDigitos(d) == d;
    MesmaChaveMesmaEmpresa(empresas, t, d);
  }

  /** Lemma: texts with the same digits find the same company. */
  lemma MesmaChaveMesmaEmpresa(empresas: map<string, Empresa>, a: string, b: string)
    requires ApenasDigitos(a) == ApenasDigitos(b)
    ensures IdentificarEmpresa(empresas, a) == IdentificarEmpresa(empresas, b)
  {
  }

  /** Lemma: the key of a formatted CNPJ is its fourteen digits. */
  lemma ChaveDoCnpjFormatado(t: string)
    requires |t| == |FormatoCnpj| && ShapeAt(t, 0, FormatoCnpj)
    ensures ApenasDigitos(t) == DigitosDoCnpj(t)
  {
    GruposDoCnpjFormatado(t);
    JuntarGrupos(t);
  }

  /** One entry of the companies file: everything but the CNPJ, which is its key. */
  datatype DadosEmpresa = DadosEmpresa(
    razaoSocial: string,
    nomeFantasia: string,
    pasta: string,
    nomesAnteriores: Option<seq<string>>)

  /** `carregar_empresas`: each entry becomes an `Empresa` whose CNPJ is its key. */
  function CarregarEmpresas(dados: map<string, DadosEmpresa>): (r: map<string, Empresa>)
    ensures r.Keys == dados.Keys
    ensures forall k :: k in r ==> r[k].cnpj == k
    ensures forall k :: k in r ==>
      var d := dados[k];
      r[k] == Empresa(k, d.razaoSocial, d.nomeFantasia, d.pasta, d.nomesAnteriores)
  {
    map k | k in dados :: Empresa(k, dados[k].razaoSocial, dados[k].nomeFantasia, dados[k].pasta, dados[k].nomesAnteriores)
  }

  /** Lemma: a company found for a CNPJ carries exactly that CNPJ's digits. */
  lemma EmpresaEncontradaTemOCnpj(dados: map<string, DadosEmpresa>, cnpj: string)
    requires IdentificarEmpresa(CarregarEmpresas(dados), cnpj).Some?
    ensures IdentificarEmpresa(CarregarEmpresas(dados), cnpj).value.cnpj == ApenasDigitos(cnpj)
  {
  }

  // ---------------------------------------------------------------------
  // `on_created` (lines 35-37)
  // ---------------------------------------------------------------------

  /**
   * `str.lower` on the letters `A`-`Z`: no capital is left, and every
   * character is the one of `t` up to letter case.
   */
  function LowerAscii(t: string): (r: string)
    ensures |r| == |t|
    ensures forall i :: 0 <= i < |r| ==> !IsUpper(r[i]) && ToUpper(r[i]) == ToUpper(t[i])
  {
    seq(|t|, i requires 0 <= i < |t| => ToLower(t[i]))
  }

  /** Only files (not directories) whose name ends in ".pdf", in any letter case, are processed. */
  function DeveProcessar(isDiretorio: bool, caminho: string): (r: bool)
    ensures r <==>
      && !isDiretorio && |caminho| >= 4
      && caminho[|caminho| - 4] == '.'
      && caminho[|caminho| - 3] in {'p', 'P'}
      && caminho[|caminho| - 2] in {'d', 'D'}
      && caminho[|caminho| - 1] in {'f', 'F'}
  {
    var baixo := LowerAscii(caminho);
    var n := |baixo|;
    assert n >= 4 ==> baixo[n - 4..] == [baixo[n - 4], baixo[n - 3], baixo[n - 2], baixo[n - 1]];
    !isDiretorio && |baixo| >= 4 && baixo[|baixo| - 4..] == ".pdf"
  }

  // ---------------------------------------------------------------------
  // `processar_pdf` (lines 39-59)
  // ---------------------------------------------------------------------

  /** The ledger file of a company: `<PASTA_DB_EMPRESAS>/<cnpj>.db` (line 51). */
  function CaminhoBanco(pastaDb: string, cnpj: string): (r: string)
    ensures |r| == |pastaDb| + |cnpj| + 4
    ensures r[..|pastaDb|] == pastaDb && r[|pastaDb|] == '/'
    ensures r[|pastaDb| + 1..|r| - 3] == cnpj && r[|r| - 3..] == ".db"
  {
    pastaDb + "/" + cnpj + ".db"
  }

  /** Lemma: distinct companies never share a ledger file. */
  lemma CaminhoBancoInjetivo(pastaDb: string, a: string, b: string)
    requires CaminhoBanco(pastaDb, a) == CaminhoBanco(pastaDb, b)
    ensures a == b
  {
    var pa := CaminhoBanco(pastaDb, a);
    var pb := CaminhoBanco(pastaDb, b);
    assert a == pa[|pastaDb| + 1..|pa| - 3];
    assert b == pb[|pastaDb| + 1..|pb| - 3];
  }

  /** The two reasons a file is moved to the conflicts folder. */
  const EmpresaNaoRegistrada := "EMPRESA_NAO_REGISTRADA"
  const ErroProcessamento := "ERRO_PROCESSAMENTO"

  /** The outcome of a step that may raise. */
  datatype Passo<T> = Concluido(valor: T) | Excecao

  /** Where a created PDF ends up. */
  datatype Desfecho =
    | Conflito(motivo: string)                          // moved to the conflicts folder
    | BancoAberto(caminhoBanco: string, empresa: Empresa)  // the company's ledger was opened
    | Escapou                                           // the move in the handler raised too

  /**
   * Something inside the `try` of `processar_pdf` (lines 40-55) raised: the
   * extraction, the move of an unregistered company's file, or opening the
   * ledger.
   */
  predicate FalhaNoTry(empresas: map<string, Empresa>, extracao: Passo<string>,
                       abrirFalha: bool, moverNaoRegistradaFalha: bool) {
    || extracao.Excecao?
    || (ApenasDigitos(extracao.valor) in empresas && abrirFalha)
    || (ApenasDigitos(extracao.valor) !in empresas && moverNaoRegistradaFalha)
  }

  /**
   * `processar_pdf` with the extraction step supplied: `extracao` is the
   * CNPJ the extractor returned or its exception, `abrirFalha` says whether
   * opening the ledger raises, `moverNaoRegistradaFalha` whether the move
   * of line 47 raises and `moverErroFalha` whether the move of line 59, in
   * the `except` branch, raises. `verificar_e_processar` is an empty stub
   * (lines 66-69) and is not a step.
   */
  function ProcessarPdf(empresas: map<string, Empresa>, pastaDb: string, extracao: Passo<string>,
                        abrirFalha: bool, moverNaoRegistradaFalha: bool, moverErroFalha: bool): (r: Desfecho)
    ensures r.BancoAberto? <==>
      extracao.Concluido? && ApenasDigitos(extracao.valor) in empresas && !abrirFalha
    ensures r.BancoAberto? ==>
      && r.empresa == empresas[ApenasDigitos(extracao.valor)]
      && r.caminhoBanco == CaminhoBanco(pastaDb, r.empresa.cnpj)
    ensures r == Conflito(EmpresaNaoRegistrada) <==>
      extracao.Concluido? && ApenasDigitos(extracao.valor) !in empresas && !moverNaoRegistradaFalha
    ensures r == Conflito(ErroProcessamento) <==>
      FalhaNoTry(empresas, extracao, abrirFalha, moverNaoRegistradaFalha) && !moverErroFalha
    ensures r.Escapou? <==>
      FalhaNoTry(empresas, extracao, abrirFalha, moverNaoRegistradaFalha) && moverErroFalha
  {
    var erro := if moverErroFalha then Escapou else Conflito(ErroProcessamento);
    match extracao
    case Excecao => erro
    case Concluido(cnpj) =>
      match IdentificarEmpresa(empresas, cnpj)
      case None => if moverNaoRegistradaFalha then erro else Conflito(EmpresaNaoRegistrada)
      case Some(empresa) =>
        if abrirFalha then erro else BancoAberto(CaminhoBanco(pastaDb, empresa.cnpj), empresa)
  }

  /**
   * `processar_pdf` as written: line 42 calls `extrair_metadados`, which
   * `PDFProcessor` does not define, so the first step always raises
   * `AttributeError`.
   */
  function ProcessarPdfAsWritten(empresas: map<string, Empresa>, pastaDb: string, abrirFalha: bool,
                                 moverNaoRegistradaFalha: bool, moverErroFalha: bool): (r: Desfecho)
    ensures r == ProcessarPdf(empresas, pastaDb, Excecao, abrirFalha, moverNaoRegistradaFalha, moverErroFalha)
  {
    if moverErroFalha then Escapou else Conflito(ErroProcessamento)
  }

  /**
   * Lemma: as written, no created PDF reaches its company's ledger or is
   * reported as unregistered; all end as processing errors.
   */
  lemma AsWrittenNuncaAbreBanco(empresas: map<string, Empresa>, pastaDb: string, abrirFalha: bool,
                                moverNaoRegistradaFalha: bool, moverErroFalha: bool)
    ensures var r := ProcessarPdfAsWritten(empresas, pastaDb, abrirFalha, moverNaoRegistradaFalha, moverErroFalha);
      && !r.BancoAberto? && r != Conflito(EmpresaNaoRegistrada)
      && (!moverErroFalha ==> r == Conflito(ErroProcessamento))
  {
  }

  /**
   * Lemma: an unregistered company's file whose first move raises is caught
   * by the `except` branch and, when the second move succeeds, ends as a
   * processing error.
   */
  lemma NaoRegistradaMoveFalhaViraErro(empresas: map<string, Empresa>, pastaDb: string, cnpj: string, abrirFalha: bool)
    requires ApenasDigitos(cnpj) !in empresas
    ensures ProcessarPdf(empresas, pastaDb, Concluido(cnpj), abrirFalha, true, false) == Conflito(ErroProcessamento)
  {
  }

  /**
   * Lemma: with the extraction in place, a registered company's slip opens
   * the ledger named after that company's key, whatever the moves would do.
   */
  lemma RegistradaAbreSeuBanco(dados: map<string, DadosEmpresa>, pastaDb: string, cnpj: string,
                               moverNaoRegistradaFalha: bool, moverErroFalha: bool)
    requires ApenasDigitos(cnpj) in dados
    ensures ProcessarPdf(CarregarEmpresas(dados), pastaDb, Concluido(cnpj), false, moverNaoRegistradaFalha, moverErroFalha)
      == BancoAberto(CaminhoBanco(pastaDb, ApenasDigitos(cnpj)), CarregarEmpresas(dados)[ApenasDigitos(cnpj)])
  {
  }
}
