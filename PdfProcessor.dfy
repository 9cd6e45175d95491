/**
 * The slip classifier and extractor of core/PDFProcessor.py: the type line
 * read by the constructor, the field extraction of `_extrair_pdf_inss` with
 * its two layouts, the recalculation flag and `_normalizar_raz_social`. The
 * PDF reader is not modelled: the first page's extracted text is the input.
 * A `.group(...)` on a failed `re.search` raises, which is the `Err` side of
 * the extraction result.
 */
module PdfProcessor {
  import opened Wrappers
  import opened Text
  import opened PdfPatterns

  /**
   * The seven values lines 68-74 pass, in their order. core/models.py
   * declares `GuiaMetadados` with six fields, so the seven values are kept
   * in a record of their own rather than squeezed into that type;
   * `ExtrairPdfInssAsWritten` models what the positional call does.
   */
  datatype GuiaExtraida = GuiaExtraida(
    cnpj: string,
    competencia: string,
    vencimento: Option<string>,
    vencimentoOriginal: string,
    valor: string,
    codIdentDocumento: string,
    caminho: string)

  /** What `_extrair_pdf_inss` leaves behind: its result and `self._empresa`. */
  datatype Extracao = Extracao(dados: GuiaExtraida, empresa: string)

  /** The search whose `.group(...)` raised, in the order the source runs them. */
  datatype Campo =
    | CampoCnpj | CampoEmpresa | CampoCodIdentDocumento | CampoVencimentoUp
    | CampoVencimentoDown | CampoValor | CampoCompetenciaESocial | CampoVencimentoOriginalESocial

  /** Every search the extraction needs succeeds, for the layout the text has. */
  predicate CamposPresentes(s: string) {
    && SearchCnpj(s).Some? && SearchCodIdent(s).Some?
    && SearchVencimentoUp(s).Some? && SearchVencimentoDown(s).Some? && SearchValor(s).Some?
    && (SearchCompVenc(s).Some? || (SearchCompetenciaESocial(s).Some? && SearchDataVencimento(s).Some?))
  }

  /**
   * `_extrair_pdf_inss` (lines 30-74): the fields in source order, the
   * normal layout when line 40 matches, otherwise the eSocial fallback.
   */
  function ExtrairPdfInss(s: string, caminho: string): (r: Result<Extracao, Campo>)
    ensures r.Ok? <==> CamposPresentes(s)
    ensures r.Ok? ==>
      var d := r.value.dados;
      && Some(d.cnpj) == SearchCnpj(s) && Some(r.value.empresa) == SearchEmpresa(s)
      && Some(d.codIdentDocumento) == SearchCodIdent(s)
      && Some(d.valor) == SearchValor(s) && d.caminho == caminho
    ensures r.Ok? ==>
      var d := r.value.dados;
      && (d.vencimento.Some? <==> SearchVencimentoUp(s) == SearchVencimentoDown(s))
      && (d.vencimento.Some? ==> d.vencimento == SearchVencimentoUp(s))
    ensures r.Ok? && SearchCompVenc(s).Some? ==>
      SearchCompVenc(s) == Some((r.value.dados.competencia, r.value.dados.vencimentoOriginal))
    ensures r.Ok? && SearchCompVenc(s).None? ==>
      && SearchCompetenciaESocial(s) == Some(r.value.dados.competencia)
      && SearchDataVencimento(s) == Some(r.value.dados.vencimentoOriginal)
  {
    var cnpj := SearchCnpj(s);
    var empresa := SearchEmpresa(s);
    var cod := SearchCodIdent(s);
    var compVenc := SearchCompVenc(s);
    var up := SearchVencimentoUp(s);
    var down := SearchVencimentoDown(s);
    var valor := SearchValor(s);
    if cnpj.None? then Err(CampoCnpj)
    else if empresa.None? then Err(CampoEmpresa)
    else if cod.None? then Err(CampoCodIdentDocumento)
    else if up.None? then Err(CampoVencimentoUp)
    else if down.None? then Err(CampoVencimentoDown)
    else if valor.None? then Err(CampoValor)
    else
      var vencimento := if up.value == down.value then Some(up.value) else None;
      var extracao := (competencia: string, original: string) =>
        Extracao(GuiaExtraida(cnpj.value, competencia, vencimento, original, valor.value, cod.value, caminho),
                 empresa.value);
      match compVenc
      case Some((competencia, original)) => Ok(extracao(competencia, original))
      case None =>
        var competencia := SearchCompetenciaESocial(s);
        var original := SearchDataVencimento(s);
        if competencia.None? then Err(CampoCompetenciaESocial)
        else if original.None? then Err(CampoVencimentoOriginalESocial)
        else Ok(extracao(competencia.value, original.value))
  }

  /**
   * Line 59, `recalculado`: a textual comparison of the two due dates in
   * which a missing `vencimento` is never equal. The source computes it and
   * does not return it; here it is a function of the extracted record.
   */
  function Recalculado(d: GuiaExtraida): (r: bool)
    ensures r <==> d.vencimento.None? || d.vencimento.value != d.vencimentoOriginal
  {
    d.vencimento != Some(d.vencimentoOriginal)
  }

  /**
   * Lemma: a slip is not flagged exactly when both in-document due dates
   * were read, agree, and equal the original due date.
   */
  lemma NaoRecalculadoQuandoCoincidem(s: string, caminho: string)
    requires ExtrairPdfInss(s, caminho).Ok?
    ensures var d := ExtrairPdfInss(s, caminho).value.dados;
      !Recalculado(d) <==>
        SearchVencimentoUp(s) == SearchVencimentoDown(s) == Some(d.vencimentoOriginal)
  {
  }

  /**
   * Lemma: whenever the two in-document due dates ("…Observações" and
   * "Pagar até: …") disagree, the slip is flagged as recalculated, whatever
   * its layout.
   */
  lemma RecalculadoQuandoVencimentosDivergem(s: string, caminho: string)
    requires ExtrairPdfInss(s, caminho).Ok?
    requires SearchVencimentoUp(s) != SearchVencimentoDown(s)
    ensures Recalculado(ExtrairPdfInss(s, caminho).value.dados)
  {
  }

  /** What the constructor (lines 12-20) ends with. */
  datatype Processamento =
    | SemCabecalho                                 // line 18: `.group(1)` on a failed search raises
    | TipoNaoTratado(tipo: string)                 // the type line names neither handled slip
    | FalhaExtracao(tipo: string, campo: Campo)   // `_extrair_pdf_inss` raised
    | Extraido(tipo: string, extracao: Extracao)

  const TiposTratados: set<string> := {TipoReceitasFederais, TipoESocial}

  /**
   * The constructor: read the line under the "Documento de Arrecadação"
   * header and extract the fields only when it is exactly one of the two
   * handled slip types.
   */
  function Processar(s: string, caminho: string): (r: Processamento)
    ensures r.SemCabecalho? <==> SearchTipoDoc(s).None?
    ensures !r.SemCabecalho? ==> Some(r.tipo) == SearchTipoDoc(s)
    ensures r.TipoNaoTratado? <==> SearchTipoDoc(s).Some? && SearchTipoDoc(s).value !in TiposTratados
    ensures r.Extraido? <==>
      SearchTipoDoc(s).Some? && SearchTipoDoc(s).value in TiposTratados && CamposPresentes(s)
    ensures r.Extraido? ==> ExtrairPdfInss(s, caminho) == Ok(r.extracao)
    ensures r.FalhaExtracao? ==> ExtrairPdfInss(s, caminho) == Err(r.campo)
  {
    match SearchTipoDoc(s)
    case None => SemCabecalho
    case Some(tipo) =>
      if tipo == TipoReceitasFederais || tipo == TipoESocial then
        match ExtrairPdfInss(s, caminho)
        case Ok(e) => Extraido(tipo, e)
        case Err(c) => FalhaExtracao(tipo, c)
      else TipoNaoTratado(tipo)
  }

  /** Why the extraction as written ends. */
  datatype FalhaEscrita = FalhaCampo(campo: Campo) | ErroAridade

  /**
   * `_extrair_pdf_inss` as written: lines 68-74 call the six-field
   * `GuiaMetadados` of core/models.py with seven positional arguments, which
   * raises `TypeError` after every search has succeeded.
   */
  function ExtrairPdfInssAsWritten(s: string, caminho: string): (r: Result<Extracao, FalhaEscrita>)
    ensures r.Err? && (r.error.FalhaCampo? ==> ExtrairPdfInss(s, caminho) == Err(r.error.campo))
  {
    match ExtrairPdfInss(s, caminho)
    case Err(c) => Err(FalhaCampo(c))
    case Ok(_) => Err(ErroAridade)
  }

  /**
   * Lemma: as written, every slip whose fields are all present ends in the
   * arity error, while the corrected extraction returns them.
   */
  lemma ErroAridadeSeCamposPresentes(s: string, caminho: string)
    ensures ExtrairPdfInssAsWritten(s, caminho) == Err(ErroAridade) <==> CamposPresentes(s)
    ensures CamposPresentes(s) <==> ExtrairPdfInss(s, caminho).Ok?
  {
  }

  // ---------------------------------------------------------------------
  // `_normalizar_raz_social` (lines 23-27)
  // ---------------------------------------------------------------------

  predicate IsAscii(c: char) { c as int < 128 }
  predicate AllAscii(t: string) { forall i :: 0 <= i < |t| ==> IsAscii(t[i]) }

  /** A character that survives `re.sub(r'[^\w\s]|[\d_]', '')` on ASCII text. */
  predicate Kept(c: char) { IsLetter(c) || IsSpace(c) }

  /** The characters of a normalised company name. */
  predicate IsNameChar(c: char) { IsUpper(c) || c == ' ' }

  /** The shape `_normalizar_raz_social` promises: upper-case words separated by single spaces. */
  predicate IsNormalised(t: string) {
    && (forall i :: 0 <= i < |t| ==> IsNameChar(t[i]))
    && (|t| > 0 ==> t[0] != ' ' && t[|t| - 1] != ' ')
    && (forall i :: 0 <= i < |t| - 1 ==> !(t[i] == ' ' && t[i + 1] == ' '))
  }

  /** The letters of `t`, in order. */
  function Letters(t: string): string {
    if t == [] then [] else (if IsLetter(t[0]) then [t[0]] else []) + Letters(t[1..])
  }

  /** Lemma: letters are never whitespace. */
  lemma {:induction false} LettersNoSpace(t: string)
    ensures NoSpace(Letters(t))
  {
    if t != [] {
      LettersNoSpace(t[1..]);
    }
  }

  lemma {:induction false} LettersAppend(a: string, b: string)
    ensures Letters(a + b) == Letters(a) + Letters(b)
    decreases |a|
  {
    if a == [] {
      assert a + b == b;
    } else {
      var head := if IsLetter(a[0]) then [a[0]] else [];
      assert (a + b)[0] == a[0];
      assert (a + b)[1..] == a[1..] + b;
      LettersAppend(a[1..], b);
      calc {
        Letters(a + b);
        head + Letters(a[1..] + b);
        head + (Letters(a[1..]) + Letters(b));
        (head + Letters(a[1..])) + Letters(b);
      }
    }
  }

  /**
   * `unidecode`: every non-ASCII character is replaced by its transliteration
   * in `table`, ASCII characters are kept. The transliteration table is not
   * part of this model; all the source relies on is that its entries are ASCII.
   */
  function Unidecode(t: string, table: char -> string): (r: string)
    requires forall c :: AllAscii(table(c))
    ensures AllAscii(r)
    ensures AllAscii(t) ==> r == t
  {
    if t == [] then []
    else (if IsAscii(t[0]) then [t[0]] else table(t[0])) + Unidecode(t[1..], table)
  }

  /**
   * `str.upper` on the letters `a`-`z`: no small letter is left, and every
   * character is the one of `t` up to letter case.
   */
  function UpperAscii(t: string): (r: string)
    ensures |r| == |t|
    ensures forall i :: 0 <= i < |r| ==> !IsLower(r[i]) && ToLower(r[i]) == ToLower(t[i])
    ensures forall i :: 0 <= i < |r| ==> (IsLetter(r[i]) <==> IsLetter(t[i]))
    ensures AllAscii(t) ==> AllAscii(r)
    ensures (forall i :: 0 <= i < |t| ==> !IsLower(t[i])) ==> r == t
  {
    seq(|t|, i requires 0 <= i < |t| => ToUpper(t[i]))
  }

  /** `re.sub(r'[^\w\s]|[\d_]', '', t)` for ASCII `t`: punctuation, digits and `_` go. */
  function KeepLettersAndSpaces(t: string): (r: string)
    requires AllAscii(t)
    ensures forall i :: 0 <= i < |r| ==> Kept(r[i])
    ensures (forall i :: 0 <= i < |t| ==> !IsLower(t[i])) ==> forall i :: 0 <= i < |r| ==> !IsLower(r[i])
    ensures Letters(r) == Letters(t)
    ensures (forall i :: 0 <= i < |t| ==> Kept(t[i])) ==> r == t
  {
    if t == [] then []
    else
      var rest := KeepLettersAndSpaces(t[1..]);
      LettersAppend([t[0]], rest);
      if Kept(t[0]) then [t[0]] + rest else rest
  }

  /** Every whitespace character is a plain blank. */
  predicate SpacesAreBlank(t: string) { forall i :: 0 <= i < |t| ==> IsSpace(t[i]) ==> t[i] == ' ' }

  /** No two whitespace characters stand next to each other. */
  predicate NoDoubleSpace(t: string) {
    forall i :: 0 <= i < |t| - 1 ==> !(IsSpace(t[i]) && IsSpace(t[i + 1]))
  }

  lemma LettersOfSpaces(t: string)
    requires forall i :: 0 <= i < |t| ==> IsSpace(t[i])
    ensures Letters(t) == []
  {
    if t != [] {
      LettersOfSpaces(t[1..]);
    }
  }

  /** `re.sub(r'\s+', ' ', t)`: every run of whitespace becomes one blank. */
  function CollapseSpaces(t: string): (r: string)
    ensures |r| <= |t|
    ensures |t| > 0 ==> |r| > 0 && (IsSpace(r[0]) <==> IsSpace(t[0]))
    ensures |t| > 0 ==> (IsSpace(r[|r| - 1]) <==> IsSpace(t[|t| - 1]))
    decreases |t|
  {
    if t == [] then []
    else if IsSpace(t[0]) then [' '] + CollapseSpaces(t[Span(t, 0, IsSpace)..])
    else [t[0]] + CollapseSpaces(t[1..])
  }

  /** Lemma: after collapsing, whitespace is single blanks only. */
  lemma {:induction false} CollapseShape(t: string)
    ensures SpacesAreBlank(CollapseSpaces(t)) && NoDoubleSpace(CollapseSpaces(t))
    decreases |t|
  {
    if t != [] {
      if IsSpace(t[0]) {
        var e := Span(t, 0, IsSpace);
        CollapseShape(t[e..]);
        var rest := CollapseSpaces(t[e..]);
        assert e < |t| ==> !IsSpace(t[e..][0]);
        assert CollapseSpaces(t) == [' '] + rest;
      } else {
        CollapseShape(t[1..]);
        assert CollapseSpaces(t) == [t[0]] + CollapseSpaces(t[1..]);
      }
    }
  }

  /** Lemma: collapsing whitespace keeps every letter, in order. */
  lemma {:induction false} CollapseLetters(t: string)
    ensures Letters(CollapseSpaces(t)) == Letters(t)
    decreases |t|
  {
    if t != [] {
      if IsSpace(t[0]) {
        var e := Span(t, 0, IsSpace);
        CollapseLetters(t[e..]);
        assert t == t[..e] + t[e..];
        LettersOfSpaces(t[..e]);
        LettersAppend(t[..e], t[e..]);
        LettersAppend([' '], CollapseSpaces(t[e..]));
      } else {
        CollapseLetters(t[1..]);
        assert t == [t[0]] + t[1..];
        LettersAppend([t[0]], t[1..]);
        LettersAppend([t[0]], CollapseSpaces(t[1..]));
      }
    }
  }

  /** Lemma: collapsing introduces no character but the blank. */
  lemma {:induction false} CollapseChars(t: string)
    ensures forall i :: 0 <= i < |CollapseSpaces(t)| ==> CollapseSpaces(t)[i] == ' ' || CollapseSpaces(t)[i] in t
    decreases |t|
  {
    if t != [] {
      if IsSpace(t[0]) {
        CollapseChars(t[Span(t, 0, IsSpace)..]);
      } else {
        CollapseChars(t[1..]);
      }
    }
  }

  /** Lemma: text whose whitespace is already single blanks is left alone. */
  lemma {:induction false} CollapseIdentity(t: string)
    requires SpacesAreBlank(t) && NoDoubleSpace(t)
    ensures CollapseSpaces(t) == t
    decreases |t|
  {
    if t != [] {
      if IsSpace(t[0]) {
        assert Span(t, 0, IsSpace) == 1;
        CollapseIdentity(t[1..]);
      } else {
        CollapseIdentity(t[1..]);
      }
    }
  }

  /** The index where the trailing whitespace of `t` begins. */
  function TrailingSpaceStart(t: string): (r: nat)
    ensures r <= |t|
    ensures forall i :: r <= i < |t| ==> IsSpace(t[i])
    ensures r == 0 || !IsSpace(t[r - 1])
  {
    if t == [] || !IsSpace(t[|t| - 1]) then |t| else TrailingSpaceStart(t[..|t| - 1])
  }

  /** Where `str.strip()` cuts `t`: after the leading and before the trailing whitespace. */
  function StripStart(t: string): (r: nat)
    ensures r <= |t|
    ensures forall i :: 0 <= i < r ==> IsSpace(t[i])
    ensures r < |t| ==> !IsSpace(t[r])
  {
    Span(t, 0, IsSpace)
  }

  function StripEnd(t: string): (r: nat)
    ensures StripStart(t) <= r <= |t|
    ensures forall i :: r <= i < |t| ==> IsSpace(t[i])
    ensures StripStart(t) < r ==> !IsSpace(t[r - 1])
  {
    if StripStart(t) == |t| then |t| else TrailingSpaceStart(t)
  }

  predicate AllSpace(t: string) { forall i :: 0 <= i < |t| ==> IsSpace(t[i]) }

  /** `str.strip()`: leading and trailing whitespace removed. */
  function Strip(t: string): (r: string)
    ensures exists a: nat, b: nat :: a <= b <= |t| && r == t[a..b] && AllSpace(t[..a]) && AllSpace(t[b..])
    ensures |r| > 0 ==> !IsSpace(r[0]) && !IsSpace(r[|r| - 1])
    ensures (|t| > 0 ==> !IsSpace(t[0]) && !IsSpace(t[|t| - 1])) ==> r == t
  {
    t[StripStart(t)..StripEnd(t)]
  }

  /** Cutting letter-free ends off `t` keeps all its letters. */
  lemma LettersOfMiddle(t: string, a: nat, b: nat)
    requires a <= b <= |t|
    requires Letters(t[..a]) == [] && Letters(t[b..]) == []
    ensures Letters(t[a..b]) == Letters(t)
  {
    assert t == t[..a] + t[a..];
    assert t[a..] == t[a..b] + t[b..];
    LettersAppend(t[a..b], t[b..]);
    LettersAppend(t[..a], t[a..]);
  }

  /** Lemma: stripping keeps every letter, in order. */
  lemma StripLetters(t: string)
    ensures Letters(Strip(t)) == Letters(t)
  {
    var a, b := StripStart(t), StripEnd(t);
    LettersOfSpaces(t[..a]);
    LettersOfSpaces(t[b..]);
    LettersOfMiddle(t, a, b);
  }

  /** Lemma: stripping a name made of capitals and single blanks leaves a normalised name. */
  lemma StripNormalised(t: string)
    requires forall i :: 0 <= i < |t| ==> IsNameChar(t[i])
    requires NoDoubleSpace(t)
    ensures IsNormalised(Strip(t))
  {
    var a, b := StripStart(t), StripEnd(t);
    var r := Strip(t);
    assert forall i :: 0 <= i < |r| ==> r[i] == t[a + i];
  }

  /** Lemma: collapsing upper-case letters and whitespace leaves capitals and single blanks. */
  lemma CollapseOfNames(t: string)
    requires forall i :: 0 <= i < |t| ==> Kept(t[i]) && !IsLower(t[i])
    ensures forall i :: 0 <= i < |CollapseSpaces(t)| ==> IsNameChar(CollapseSpaces(t)[i])
    ensures NoDoubleSpace(CollapseSpaces(t))
  {
    CollapseShape(t);
    CollapseChars(t);
    var c := CollapseSpaces(t);
    forall i | 0 <= i < |c| ensures IsNameChar(c[i]) {
      assert c[i] == ' ' || c[i] in t;
    }
  }

  // ---------------------------------------------------------------------
  // Words: what the normalisation keeps of a name
  // ---------------------------------------------------------------------

  /** `str.split()`: the maximal runs of non-whitespace characters of `t`, in order. */
  function Words(t: string): (r: seq<string>)
    ensures forall i :: 0 <= i < |r| ==> r[i] != [] && NoSpace(r[i])
    decreases |t|
  {
    if t == [] then []
    else if IsSpace(t[0]) then Words(t[1..])
    else
      var e := Span(t, 0, IsNonSpace);
      [t[..e]] + Words(t[e..])
  }

  /** `' '.join(ws)`. */
  function JoinWords(ws: seq<string>): string {
    if ws == [] then []
    else if |ws| == 1 then ws[0]
    else ws[0] + " " + JoinWords(ws[1..])
  }

  /** The letters of every word, words left without a letter dropped. */
  function LettersOfWords(ws: seq<string>): seq<string> {
    if ws == [] then []
    else (if Letters(ws[0]) == [] then [] else [Letters(ws[0])]) + LettersOfWords(ws[1..])
  }

  /** Lemma: a word followed by whitespace or by nothing is the first word. */
  lemma WordsFirst(w: string, x: string)
    requires w != [] && NoSpace(w)
    requires x == [] || IsSpace(x[0])
    ensures Words(w + x) == [w] + Words(x)
  {
    var t := w + x;
    SpanIs(t, 0, |w|, IsNonSpace);
    assert t[..|w|] == w && t[|w|..] == x;
  }

  /** Lemma: leading whitespace does not change the words. */
  lemma {:induction false} WordsLeadingSpace(sp: string, x: string)
    requires forall i :: 0 <= i < |sp| ==> IsSpace(sp[i])
    ensures Words(sp + x) == Words(x)
    decreases |sp|
  {
    if sp == [] {
      assert sp + x == x;
    } else {
      assert (sp + x)[0] == sp[0];
      assert (sp + x)[1..] == sp[1..] + x;
      WordsLeadingSpace(sp[1..], x);
    }
  }

  /** Lemma: trailing whitespace does not change the words. */
  lemma {:induction false} WordsTrailingSpace(m: string, sp: string)
    requires forall i :: 0 <= i < |sp| ==> IsSpace(sp[i])
    ensures Words(m + sp) == Words(m)
    decreases |m|
  {
    if m == [] {
      assert m + sp == sp + [];
      WordsLeadingSpace(sp, []);
    } else if IsSpace(m[0]) {
      assert (m + sp)[0] == m[0];
      assert (m + sp)[1..] == m[1..] + sp;
      WordsTrailingSpace(m[1..], sp);
    } else {
      var e := Span(m, 0, IsNonSpace);
      var w, rest := m[..e], m[e..];
      assert m == w + rest;
      assert m + sp == w + (rest + sp);
      WordsFirst(w, rest);
      WordsFirst(w, rest + sp);
      WordsTrailingSpace(rest, sp);
    }
  }

  lemma HeadThenRest(w: string, x: string)
    requires w != []
    ensures [w[0]] + (w[1..] + x) == w + x
  {
    assert w == [w[0]] + w[1..];
  }

  /** Lemma: collapsing keeps a leading non-whitespace character in front. */
  lemma CollapseHead(c: char, x: string)
    requires !IsSpace(c)
    ensures CollapseSpaces([c] + x) == [c] + CollapseSpaces(x)
  {
    assert ([c] + x)[1..] == x;
  }

  /** Lemma: collapsing keeps a leading word in front. */
  lemma {:induction false} CollapseWord(w: string, x: string)
    requires NoSpace(w)
    ensures CollapseSpaces(w + x) == w + CollapseSpaces(x)
    decreases |w|
  {
    if w == [] {
      assert w + x == x;
    } else {
      CollapseHead(w[0], w[1..] + x);
      HeadThenRest(w, x);
      CollapseWord(w[1..], x);
      HeadThenRest(w, CollapseSpaces(x));
    }
  }

  /** Lemma: collapsing whitespace keeps the words of `t`, in order. */
  lemma {:induction false} CollapseWords(t: string)
    ensures Words(CollapseSpaces(t)) == Words(t)
    decreases |t|
  {
    if t != [] {
      if IsSpace(t[0]) {
        var e := Span(t, 0, IsSpace);
        assert t == t[..e] + t[e..];
        WordsLeadingSpace(t[..e], t[e..]);
        WordsLeadingSpace([' '], CollapseSpaces(t[e..]));
        CollapseWords(t[e..]);
      } else {
        var e := Span(t, 0, IsNonSpace);
        var w, rest := t[..e], t[e..];
        assert t == w + rest;
        CollapseWord(w, rest);
        WordsFirst(w, rest);
        WordsFirst(w, CollapseSpaces(rest));
        CollapseWords(rest);
      }
    }
  }

  /** Lemma: stripping keeps the words of `t`. */
  lemma StripWords(t: string)
    ensures Words(Strip(t)) == Words(t)
  {
    var a, b := StripStart(t), StripEnd(t);
    assert t == t[..a] + (t[a..b] + t[b..]);
    WordsLeadingSpace(t[..a], t[a..b] + t[b..]);
    WordsTrailingSpace(t[a..b], t[b..]);
  }

  /** Lemma: the filter appends. */
  lemma {:induction false} KeepAppend(a: string, b: string)
    requires AllAscii(a) && AllAscii(b)
    ensures KeepLettersAndSpaces(a + b) == KeepLettersAndSpaces(a) + KeepLettersAndSpaces(b)
    decreases |a|
  {
    if a == [] {
      assert a + b == b;
    } else {
      assert (a + b)[0] == a[0];
      assert (a + b)[1..] == a[1..] + b;
      KeepAppend(a[1..], b);
    }
  }

  /** Lemma: a single character is kept exactly when it is a letter or whitespace. */
  lemma KeepSingle(c: char)
    requires IsAscii(c)
    ensures KeepLettersAndSpaces([c]) == if Kept(c) then [c] else []
  {
    assert [c][1..] == [];
  }

  /** Lemma: inside a word the filter keeps exactly the letters. */
  lemma {:induction false} KeepWord(w: string)
    requires AllAscii(w) && NoSpace(w)
    ensures KeepLettersAndSpaces(w) == Letters(w)
    decreases |w|
  {
    if w != [] {
      KeepWord(w[1..]);
    }
  }

  /** Lemma: one word of the input contributes its letters, if it has any. */
  lemma KeepWordsStep(w: string, rest: string)
    requires w != [] && NoSpace(w) && AllAscii(w) && AllAscii(rest)
    requires rest == [] || IsSpace(rest[0])
    requires Words(KeepLettersAndSpaces(rest)) == LettersOfWords(Words(rest))
    ensures Words(KeepLettersAndSpaces(w + rest)) == LettersOfWords([w] + Words(rest))
  {
    KeepAppend(w, rest);
    KeepWord(w);
    var kr := KeepLettersAndSpaces(rest);
    assert kr == [] || IsSpace(kr[0]);
    assert ([w] + Words(rest))[1..] == Words(rest);
    if Letters(w) != [] {
      LettersNoSpace(w);
      WordsFirst(Letters(w), kr);
    } else {
      assert [] + kr == kr;
    }
  }

  /**
   * Lemma: the filter turns every word into its letters and drops the words
   * that have none; whitespace still separates what is left.
   */
  lemma {:induction false} KeepWords(u: string)
    requires AllAscii(u)
    ensures Words(KeepLettersAndSpaces(u)) == LettersOfWords(Words(u))
    decreases |u|
  {
    if u != [] {
      if IsSpace(u[0]) {
        KeepWords(u[1..]);
      } else {
        var e := Span(u, 0, IsNonSpace);
        var w, rest := u[..e], u[e..];
        assert u == w + rest;
        WordsFirst(w, rest);
        KeepWords(rest);
        KeepWordsStep(w, rest);
      }
    }
  }

  /** Lemma: joining a word in front of more words puts one blank between them. */
  lemma JoinWordsCons(w: string, ws: seq<string>)
    requires ws != []
    ensures JoinWords([w] + ws) == w + " " + JoinWords(ws)
  {
    assert ([w] + ws)[1..] == ws;
  }

  /** Lemma: text that starts with a non-whitespace character has a word. */
  lemma WordsNonEmpty(t: string)
    requires t != [] && !IsSpace(t[0])
    ensures Words(t) != []
  {
  }

  /** Lemma: after the first word of a normalised name come one blank and a normalised name. */
  lemma NormalisedRest(a: string, e: nat)
    requires IsNormalised(a) && e < |a|
    requires forall i :: 0 <= i < e ==> IsNonSpace(a[i])
    requires IsSpace(a[e])
    ensures a[e] == ' ' && e + 1 < |a| && IsNormalised(a[e + 1..]) && !IsSpace(a[e + 1])
  {
    var rest := a[e + 1..];
    assert forall i :: 0 <= i < |rest| ==> rest[i] == a[e + 1 + i];
  }

  /** Lemma: a first word, one blank and a name that is its words joined give a name that is its words joined. */
  lemma JoinWordsStep(a: string, w: string, rest: string)
    requires w != [] && NoSpace(w) && rest != [] && !IsSpace(rest[0])
    requires a == w + " " + rest && rest == JoinWords(Words(rest))
    ensures a == JoinWords(Words(a))
  {
    assert a == w + (" " + rest);
    WordsFirst(w, " " + rest);
    assert (" " + rest)[1..] == rest;
    WordsNonEmpty(rest);
    JoinWordsCons(w, Words(rest));
  }

  /** Lemma: a normalised name is its words joined by single blanks. */
  lemma {:induction false} NormalisedJoinWords(a: string)
    requires IsNormalised(a)
    ensures a == JoinWords(Words(a))
    decreases |a|
  {
    if a != [] {
      var e := Span(a, 0, IsNonSpace);
      var w := a[..e];
      if e < |a| {
        NormalisedRest(a, e);
        var rest := a[e + 1..];
        NormalisedJoinWords(rest);
        assert a == w + " " + rest;
        JoinWordsStep(a, w, rest);
      } else {
        assert a == w + [];
        WordsFirst(w, []);
      }
    }
  }

  /**
   * `_normalizar_raz_social`: transliterate, upper-case, drop everything but
   * letters and whitespace, collapse whitespace, strip. The result is
   * upper-case words separated by single blanks, and keeps every letter of
   * the transliterated name in order.
   */
  function NormalizarRazaoSocial(t: string, table: char -> string): (r: string)
    requires forall c :: AllAscii(table(c))
    ensures IsNormalised(r)
    ensures Letters(r) == Letters(UpperAscii(Unidecode(t, table)))
    ensures r == JoinWords(LettersOfWords(Words(UpperAscii(Unidecode(t, table)))))
  {
    var u := UpperAscii(Unidecode(t, table));
    var kept := KeepLettersAndSpaces(u);
    var collapsed := CollapseSpaces(kept);
    CollapseLetters(kept);
    StripLetters(collapsed);
    CollapseOfNames(kept);
    StripNormalised(collapsed);
    KeepWords(u);
    CollapseWords(kept);
    StripWords(collapsed);
    NormalisedJoinWords(Strip(collapsed));
    Strip(collapsed)
  }

  /** Lemma: the character-wise steps of the normalisation leave a normalised name as it is. */
  lemma StepsPreserveNormalised(t: string, table: char -> string)
    requires forall c :: AllAscii(table(c))
    requires IsNormalised(t)
    ensures KeepLettersAndSpaces(UpperAscii(Unidecode(t, table))) == t
  {
    assert AllAscii(t);
    assert Unidecode(t, table) == t;
    assert forall i :: 0 <= i < |t| ==> !IsLower(t[i]);
    assert UpperAscii(t) == t;
    assert forall i :: 0 <= i < |t| ==> Kept(t[i]);
  }

  /** Lemma: normalising a normalised name gives it back. */
  lemma NormalizarIdempotente(t: string, table: char -> string)
    requires forall c :: AllAscii(table(c))
    requires IsNormalised(t)
    ensures NormalizarRazaoSocial(t, table) == t
  {
    StepsPreserveNormalised(t, table);
    assert SpacesAreBlank(t) && NoDoubleSpace(t);
    CollapseIdentity(t);
    assert Strip(t) == t;
  }

}
