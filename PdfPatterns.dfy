/**
 * The regular expressions of core/PDFProcessor.py. Each `re.search` becomes a
 * "match at position p" function scanned leftmost by `FirstMatch`, and a
 * search function whose contract describes the match without the scan.
 */
module PdfPatterns {
  import opened Wrappers
  import opened Text

  const Cabecalho := "Documento de Arrecadação\n"
  const TipoReceitasFederais := "de Receitas Federais"
  const TipoESocial := "do eSocial"
  const FormatoCnpj := "99.999.999/9999-99"
  const MarcaPagarDocumento := "Pagar este documento até"
  const MarcaPa := "PA:"
  const MarcaVencimento := "Vencimento:"
  const MarcaObservacoes := "Observações"
  const MarcaPagarAte := "Pagar até: "
  const MarcaValor := "Valor:"
  const MarcaDataVencimento := "Data de Vencimento\n"
  const FormatoData := "99/99/9999"

  predicate NoSpace(t: string) {
    forall i :: 0 <= i < |t| ==> IsNonSpace(t[i])
  }

  predicate NoNewline(t: string) {
    forall i :: 0 <= i < |t| ==> t[i] != '\n'
  }

  /** `lit` occurs at `k` with a non-whitespace character glued right before it. */
  predicate GluedAt(s: string, k: nat, lit: string) {
    0 < k && LiteralAt(s, k, lit) && IsNonSpace(s[k - 1])
  }

  /** `lit` occurs at `k` and a non-whitespace character follows it. */
  predicate FollowedAt(s: string, k: nat, lit: string) {
    LiteralAt(s, k, lit) && k + |lit| < |s| && IsNonSpace(s[k + |lit|])
  }

  // ---------------------------------------------------------------------------
  // Patterns at one start position
  // ---------------------------------------------------------------------------

  /** `Documento de Arrecadação\n(.*)`: the whole next line. */
  function TipoDocAt(s: string, p: nat): Option<string> {
    if LiteralAt(s, p, Cabecalho) then
      var a := p + |Cabecalho|;
      Some(s[a..LineEnd(s, a)])
    else None
  }

  /** `\d{2}\.\d{3}\.\d{3}/\d{4}-\d{2}`. */
  function CnpjAt(s: string, p: nat): Option<string> {
    if ShapeAt(s, p, FormatoCnpj) then Some(s[p..p + |FormatoCnpj|]) else None
  }

  /**
   * The same pattern followed by `\s*(.*)`: the greedy `\s*` may cross line
   * breaks, and the `.*` after it always succeeds, so nothing backtracks.
   */
  function EmpresaAt(s: string, p: nat): Option<string> {
    if ShapeAt(s, p, FormatoCnpj) then
      var a := Span(s, p + |FormatoCnpj|, IsSpace);
      Some(s[a..LineEnd(s, a)])
    else None
  }

  /**
   * `(\S+)<lit>`: `\S+` runs to the end of the non-whitespace run and then
   * gives characters back until `lit` follows.
   */
  function TokenBeforeAt(s: string, p: nat, lit: string): Option<string> {
    if p < |s| && IsNonSpace(s[p]) then
      var e := Span(s, p, IsNonSpace);
      match LastSplit(p + 1, e, (k: nat) => LiteralAt(s, k, lit))
      case Some(k) => Some(s[p..k])
      case None => None
    else None
  }

  /** `<lit>(\S+)`. */
  function TokenAfterAt(s: string, p: nat, lit: string): Option<string> {
    if LiteralAt(s, p, lit) then
      var a := p + |lit|;
      var e := Span(s, a, IsNonSpace);
      if e == a then None else Some(s[a..e])
    else None
  }

  /** "Vencimento:" at `h` followed by at least one character of its line (`.+`). */
  predicate VencimentoLineAt(s: string, h: nat) {
    LiteralAt(s, h, MarcaVencimento) && LineEnd(s, h + |MarcaVencimento|) > h + |MarcaVencimento|
  }

  /**
   * `PA:(\S+)\s+Vencimento:(.+)`. The `\S+` can only hand over to `\s+` at
   * the end of its run (every earlier character is non-whitespace); `\s+`
   * then gives characters back down to the largest split where the rest
   * matches.
   */
  function CompVencAt(s: string, p: nat): Option<(string, string)> {
    if LiteralAt(s, p, MarcaPa) then
      var a := p + |MarcaPa|;
      var g := Span(s, a, IsNonSpace);
      if g == a then None
      else
        var f := Span(s, g, IsSpace);
        match LastSplit(g + 1, f, (h: nat) => VencimentoLineAt(s, h))
        case Some(h) =>
          var b := h + |MarcaVencimento|;
          Some((s[a..g], s[b..LineEnd(s, b)]))
        case None => None
    else None
  }

  /**
   * `Valor:\s*(\d+,\d{1,2})`. Giving back whitespace from `\s*` would put a
   * space where `\d` is needed, and giving back digits from `\d+` would put a
   * digit where ',' is needed, so only the greedy choice can match.
   */
  function ValorAt(s: string, p: nat): Option<string> {
    if LiteralAt(s, p, MarcaValor) then
      var f := Span(s, p + |MarcaValor|, IsSpace);
      var d := Span(s, f, IsDigit);
      if d == f || d + 1 >= |s| || s[d] != ',' || !IsDigit(s[d + 1]) then None
      else
        var e := if d + 2 < |s| && IsDigit(s[d + 2]) then d + 3 else d + 2;
        Some(s[f..e])
    else None
  }

  /** `Data de Vencimento\n(\d{2}/\d{2}/\d{4})`. */
  function DataVencimentoAt(s: string, p: nat): Option<string> {
    var a := p + |MarcaDataVencimento|;
    if LiteralAt(s, p, MarcaDataVencimento) && ShapeAt(s, a, FormatoData) then
      Some(s[a..a + |FormatoData|])
    else None
  }

  /** `t` occupies `s` from `a` up to the end of that line. */
  predicate WholeLineAt(s: string, a: nat, t: string) {
    a + |t| <= |s| && s[a..a + |t|] == t && NoNewline(t) && (a + |t| == |s| || s[a + |t|] == '\n')
  }

  /** `t` is a maximal non-whitespace run of `s` starting at `a`. */
  predicate TokenAt(s: string, a: nat, t: string) {
    t != [] && a + |t| <= |s| && s[a..a + |t|] == t && NoSpace(t)
    && (a + |t| == |s| || IsSpace(s[a + |t|]))
  }

  predicate FirstLiteral(s: string, p: nat, lit: string) {
    LiteralAt(s, p, lit) && forall q :: 0 <= q < p ==> !LiteralAt(s, q, lit)
  }

  predicate FirstShape(s: string, p: nat, shape: string) {
    ShapeAt(s, p, shape) && forall q :: 0 <= q < p ==> !ShapeAt(s, q, shape)
  }

  // ---------------------------------------------------------------------------
  // The searches, each characterised without reference to the scan
  // ---------------------------------------------------------------------------

  /** Line 18: the full line after the first "Documento de Arrecadação". */
  function SearchTipoDoc(s: string): (r: Option<string>)
    ensures r.None? <==> forall p :: 0 <= p <= |s| ==> !LiteralAt(s, p, Cabecalho)
    ensures r.Some? ==>
      exists p: nat :: FirstLiteral(s, p, Cabecalho) && WholeLineAt(s, p + |Cabecalho|, r.value)
  {
    var m := FirstMatch(s, 0, TipoDocAt);
    assert forall q :: 0 <= q <= |s| && (m.None? || q < m.value.0) ==> !LiteralAt(s, q, Cabecalho) by {
      forall q | 0 <= q <= |s| && (m.None? || q < m.value.0) ensures !LiteralAt(s, q, Cabecalho) {
        FirstMatchMisses(s, 0, TipoDocAt, q);
      }
    }
    match m
    case Some((p, t)) =>
      TipoDocAtLine(s, p);
      assert FirstLiteral(s, p, Cabecalho) && WholeLineAt(s, p + |Cabecalho|, t);
      Some(t)
    case None => None
  }

  /** Lemma: what `TipoDocAt` captures is the whole line after the header. */
  lemma TipoDocAtLine(s: string, p: nat)
    requires TipoDocAt(s, p).Some?
    ensures WholeLineAt(s, p + |Cabecalho|, TipoDocAt(s, p).value)
  {
    var a := p + |Cabecalho|;
    var t := TipoDocAt(s, p).value;
    assert t == s[a..LineEnd(s, a)];
    assert forall i :: 0 <= i < |t| ==> t[i] == s[a + i];
  }

  /** Line 37: the leftmost CNPJ-shaped substring; check digits are not verified. */
  function SearchCnpj(s: string): (r: Option<string>)
    ensures r.None? <==> forall p :: 0 <= p <= |s| ==> !ShapeAt(s, p, FormatoCnpj)
    ensures r.Some? ==>
      ShapeAt(r.value, 0, FormatoCnpj) && |r.value| == |FormatoCnpj|
      && exists p: nat :: FirstShape(s, p, FormatoCnpj) && s[p..p + |FormatoCnpj|] == r.value
  {
    var m := FirstMatch(s, 0, CnpjAt);
    assert forall q :: 0 <= q <= |s| && (m.None? || q < m.value.0) ==> !ShapeAt(s, q, FormatoCnpj) by {
      forall q | 0 <= q <= |s| && (m.None? || q < m.value.0) ensures !ShapeAt(s, q, FormatoCnpj) {
        FirstMatchMisses(s, 0, CnpjAt, q);
      }
    }
    match m
    case Some((p, t)) =>
      assert FirstShape(s, p, FormatoCnpj);
      Some(t)
    case None => None
  }

  /** Line 38: the line that starts at the first non-whitespace after the CNPJ. */
  function SearchEmpresa(s: string): (r: Option<string>)
    ensures r.Some? <==> SearchCnpj(s).Some?
    ensures r.Some? ==>
      exists p: nat :: FirstShape(s, p, FormatoCnpj)
        && WholeLineAt(s, Span(s, p + |FormatoCnpj|, IsSpace), r.value)
  {
    var m := FirstMatch(s, 0, EmpresaAt);
    assert forall q :: 0 <= q <= |s| && (m.None? || q < m.value.0) ==> !ShapeAt(s, q, FormatoCnpj) by {
      forall q | 0 <= q <= |s| && (m.None? || q < m.value.0) ensures !ShapeAt(s, q, FormatoCnpj) {
        FirstMatchMisses(s, 0, EmpresaAt, q);
      }
    }
    match m
    case Some((p, t)) =>
      EmpresaAtLine(s, p);
      assert FirstShape(s, p, FormatoCnpj);
      assert WholeLineAt(s, Span(s, p + |FormatoCnpj|, IsSpace), t);
      Some(t)
    case None => None
  }

  /** Lemma: what `EmpresaAt` captures is the whole line after the whitespace. */
  lemma EmpresaAtLine(s: string, p: nat)
    requires EmpresaAt(s, p).Some?
    ensures WholeLineAt(s, Span(s, p + |FormatoCnpj|, IsSpace), EmpresaAt(s, p).value)
  {
    var a := Span(s, p + |FormatoCnpj|, IsSpace);
    var t := EmpresaAt(s, p).value;
    assert t == s[a..LineEnd(s, a)];
    assert forall i :: 0 <= i < |t| ==> t[i] == s[a + i];
  }

  /**
   * Lemma: when the characters from `q` up to an occurrence of `lit` at `k`
   * are all non-whitespace, the pattern `(\S+)<lit>` matches at `q`.
   */
  lemma TokenBeforeFound(s: string, q: nat, k: nat, lit: string)
    requires q < k
    ensures (LiteralAt(s, k, lit) && forall j :: q <= j < k ==> IsNonSpace(s[j])) ==> TokenBeforeAt(s, q, lit).Some?
  {
    if LiteralAt(s, k, lit) && forall j :: q <= j < k ==> IsNonSpace(s[j]) {
      var e := Span(s, q, IsNonSpace);
      assert k <= e;
      var ok := (j: nat) => LiteralAt(s, j, lit);
      assert ok(k);
      assert LastSplit(q + 1, e, ok).Some?;
    }
  }

  /** `t` stands at `p`, contains no whitespace, and `lit` follows it. */
  predicate TokenGluedBefore(s: string, p: nat, t: string, lit: string) {
    t != [] && NoSpace(t) && p + |t| <= |s| && s[p..p + |t|] == t && LiteralAt(s, p + |t|, lit)
  }

  /** No occurrence of `lit` starts after the end of `t` within the non-whitespace run that `t` opens at `p`. */
  predicate LastInRun(s: string, p: nat, t: string, lit: string)
    requires p <= |s|
  {
    forall k :: p + |t| < k <= Span(s, p, IsNonSpace) ==> !LiteralAt(s, k, lit)
  }

  /**
   * What `(\S+)<lit>` finds first: the token `t` at `p` is glued before
   * `lit`, opens its whitespace-delimited run, no occurrence of `lit` up to
   * `p` has a token glued to it, and the greedy `\S+` has handed back only as
   * far as the last occurrence of `lit` in the run.
   */
  predicate FirstTokenBefore(s: string, p: nat, t: string, lit: string) {
    && TokenGluedBefore(s, p, t, lit)
    && (p == 0 || IsSpace(s[p - 1]))
    && (forall k :: 0 <= k <= p ==> !GluedAt(s, k, lit))
    && LastInRun(s, p, t, lit)
  }

  /** Lemma: what a match of `(\S+)<lit>` at `p` consists of. */
  lemma TokenBeforeShape(s: string, p: nat, lit: string)
    requires TokenBeforeAt(s, p, lit).Some?
    ensures TokenGluedBefore(s, p, TokenBeforeAt(s, p, lit).value, lit)
    ensures LastInRun(s, p, TokenBeforeAt(s, p, lit).value, lit)
  {
    var e := Span(s, p, IsNonSpace);
    var ok := (k: nat) => LiteralAt(s, k, lit);
    var k := LastSplit(p + 1, e, ok).value;
    assert TokenBeforeAt(s, p, lit).value == s[p..k];
    forall j: nat | k < j <= e ensures !LiteralAt(s, j, lit) {
      assert !ok(j);
    }
  }

  /** Lemma: a token glued to `lit` at `k` makes `(\S+)<lit>` match one position earlier. */
  lemma TokenBeforeGlued(s: string, k: nat, lit: string)
    requires 0 < k
    ensures GluedAt(s, k, lit) ==> TokenBeforeAt(s, k - 1, lit).Some?
  {
    if GluedAt(s, k, lit) {
      TokenBeforeFound(s, k - 1, k, lit);
    }
  }

  /** Lemma: a scan that has passed position `k - 1` saw nothing glued to `lit` at `k`. */
  lemma TokenBeforeScanPassed(s: string, lit: string, m: (string, nat) -> Option<string>, k: nat)
    requires forall q: nat :: m(s, q) == TokenBeforeAt(s, q, lit)
    requires k <= |s|
    requires FirstMatch(s, 0, m).None? || (FirstMatch(s, 0, m).Some? && k <= FirstMatch(s, 0, m).value.0)
    ensures !GluedAt(s, k, lit)
  {
    if 0 < k {
      FirstMatchMisses(s, 0, m, k - 1);
      TokenBeforeGlued(s, k, lit);
    }
  }

  /** Lemma: a scan of `(\S+)<lit>` that misses saw nothing glued to `lit`. */
  lemma TokenBeforeScanMisses(s: string, lit: string, m: (string, nat) -> Option<string>)
    requires forall q: nat :: m(s, q) == TokenBeforeAt(s, q, lit)
    requires FirstMatch(s, 0, m).None?
    ensures forall k :: 0 <= k <= |s| ==> !GluedAt(s, k, lit)
  {
    forall k | 0 <= k <= |s| ensures !GluedAt(s, k, lit) {
      TokenBeforeScanPassed(s, lit, m, k);
    }
  }

  /** Lemma: a hit of the scan ends where a token is glued to `lit`. */
  lemma TokenBeforeScanGlued(s: string, lit: string, m: (string, nat) -> Option<string>)
    requires forall q: nat :: m(s, q) == TokenBeforeAt(s, q, lit)
    requires FirstMatch(s, 0, m).Some?
    ensures FirstMatch(s, 0, m).value.0 + |FirstMatch(s, 0, m).value.1| <= |s|
    ensures GluedAt(s, FirstMatch(s, 0, m).value.0 + |FirstMatch(s, 0, m).value.1|, lit)
  {
    var p := FirstMatch(s, 0, m).value.0;
    var t := FirstMatch(s, 0, m).value.1;
    TokenBeforeShape(s, p, lit);
    TokenEndsGlued(s, p, t, lit);
  }

  /** Lemma: a non-empty token of `s` followed by `lit` is glued to it. */
  lemma TokenEndsGlued(s: string, p: nat, t: string, lit: string)
    requires TokenGluedBefore(s, p, t, lit)
    ensures GluedAt(s, p + |t|, lit)
  {
    assert s[p + |t| - 1] == t[|t| - 1];
  }

  /** Lemma: a hit of the scan is a token glued before `lit`. */
  lemma TokenBeforeScanHit(s: string, lit: string, m: (string, nat) -> Option<string>)
    requires forall q: nat :: m(s, q) == TokenBeforeAt(s, q, lit)
    requires FirstMatch(s, 0, m).Some?
    ensures TokenGluedBefore(s, FirstMatch(s, 0, m).value.0, FirstMatch(s, 0, m).value.1, lit)
    ensures LastInRun(s, FirstMatch(s, 0, m).value.0, FirstMatch(s, 0, m).value.1, lit)
  {
    TokenBeforeShape(s, FirstMatch(s, 0, m).value.0, lit);
  }

  /** Lemma: a hit of the scan starts at the beginning of its token. */
  lemma TokenBeforeScanStart(s: string, lit: string, m: (string, nat) -> Option<string>)
    requires forall q: nat :: m(s, q) == TokenBeforeAt(s, q, lit)
    requires FirstMatch(s, 0, m).Some?
    ensures var p := FirstMatch(s, 0, m).value.0; p == 0 || IsSpace(s[p - 1])
  {
    var p := FirstMatch(s, 0, m).value.0;
    var t := FirstMatch(s, 0, m).value.1;
    TokenBeforeShape(s, p, lit);
    if p > 0 {
      assert forall j :: p <= j < p + |t| ==> IsNonSpace(s[j]) by {
        forall j | p <= j < p + |t| ensures IsNonSpace(s[j]) { assert s[j] == t[j - p]; }
      }
      FirstMatchMisses(s, 0, m, p - 1);
      TokenBeforeFound(s, p - 1, p + |t|, lit);
    }
  }

  /** Lemma: no occurrence of `lit` up to the start of the hit is glued to a token. */
  lemma TokenBeforeScanEarlier(s: string, lit: string, m: (string, nat) -> Option<string>)
    requires forall q: nat :: m(s, q) == TokenBeforeAt(s, q, lit)
    requires FirstMatch(s, 0, m).Some?
    ensures forall k :: 0 <= k <= FirstMatch(s, 0, m).value.0 ==> !GluedAt(s, k, lit)
  {
    var p := FirstMatch(s, 0, m).value.0;
    forall k | 0 <= k <= p ensures !GluedAt(s, k, lit) {
      TokenBeforeScanPassed(s, lit, m, k);
    }
  }

  /** `(\S+)<lit>` anywhere: where the token starts, and the token. */
  function SearchTokenBefore(s: string, lit: string): (r: Option<(nat, string)>)
    ensures r.None? <==> forall k :: 0 <= k <= |s| ==> !GluedAt(s, k, lit)
    ensures r.Some? ==> FirstTokenBefore(s, r.value.0, r.value.1, lit)
  {
    var at := (u: string, q: nat) => TokenBeforeAt(u, q, lit);
    if FirstMatch(s, 0, at).Some? then
      TokenBeforeScanGlued(s, lit, at);
      TokenBeforeScanHit(s, lit, at);
      TokenBeforeScanStart(s, lit, at);
      TokenBeforeScanEarlier(s, lit, at);
      FirstMatch(s, 0, at)
    else
      TokenBeforeScanMisses(s, lit, at);
      None
  }

  /** Lemma: at most one token start can be the first one glued before `lit`. */
  lemma FirstTokenBeforeStart(s: string, lit: string, p: nat, t: string, p': nat, t': string)
    requires FirstTokenBefore(s, p, t, lit) && FirstTokenBefore(s, p', t', lit)
    ensures p' <= p
  {
    TokenEndsGlued(s, p, t, lit);
    assert p' < p + |t|;
    assert forall j :: p <= j < p + |t| ==> IsNonSpace(s[j]) by {
      forall j | p <= j < p + |t| ensures IsNonSpace(s[j]) { assert s[j] == t[j - p]; }
    }
  }

  /** Lemma: from one start, only the last occurrence of `lit` in the run can end the token. */
  lemma FirstTokenBeforeEnd(s: string, lit: string, p: nat, t: string, t': string)
    requires FirstTokenBefore(s, p, t, lit) && FirstTokenBefore(s, p, t', lit)
    ensures |t'| <= |t|
  {
    assert forall j :: p <= j < p + |t'| ==> IsNonSpace(s[j]) by {
      forall j | p <= j < p + |t'| ensures IsNonSpace(s[j]) { assert s[j] == t'[j - p]; }
    }
    assert p + |t'| <= Span(s, p, IsNonSpace);
  }

  /** Lemma: the first token glued before `lit` is determined by `s` and `lit`. */
  lemma FirstTokenBeforeUnique(s: string, lit: string, p: nat, t: string, p': nat, t': string)
    requires FirstTokenBefore(s, p, t, lit) && FirstTokenBefore(s, p', t', lit)
    ensures p == p' && t == t'
  {
    FirstTokenBeforeStart(s, lit, p, t, p', t');
    FirstTokenBeforeStart(s, lit, p', t', p, t);
    FirstTokenBeforeEnd(s, lit, p, t, t');
    FirstTokenBeforeEnd(s, lit, p, t', t);
  }

  /** `t` is the whole non-whitespace token that ends right before position `k`. */
  predicate TokenEndingAt(s: string, k: nat, t: string) {
    t != [] && |t| <= k <= |s| && s[k - |t|..k] == t && NoSpace(t)
    && (k == |t| || IsSpace(s[k - |t| - 1]))
  }

  /**
   * Lemma: two occurrences of "Pagar este documento até" cannot overlap
   * within one token: the later one starts after the space that follows
   * "Pagar" in the earlier one.
   */
  lemma PagarDocumentoApart(s: string, j: nat, k: nat)
    requires j < k && LiteralAt(s, k, MarcaPagarDocumento)
    ensures LiteralAt(s, j, MarcaPagarDocumento) ==> j + 5 < k && IsSpace(s[j + 5])
  {
    if LiteralAt(s, j, MarcaPagarDocumento) {
      LiteralAtChar(s, j, MarcaPagarDocumento, 5);
      LiteralAtChar(s, k, MarcaPagarDocumento, 0);
      if k <= j + 5 {
        LiteralAtChar(s, j, MarcaPagarDocumento, k - j);
      }
    }
  }

  /** Lemma: a token that starts after whitespace and is followed by `lit` is glued to `lit` and ends there. */
  lemma TokenEndsAtStart(s: string, p: nat, t: string, lit: string)
    requires TokenGluedBefore(s, p, t, lit) && (p == 0 || IsSpace(s[p - 1]))
    ensures GluedAt(s, p + |t|, lit) && TokenEndingAt(s, p + |t|, t)
  {
    TokenEndsGlued(s, p, t, lit);
    assert s[p + |t| - |t|..p + |t|] == s[p..p + |t|];
  }

  /**
   * Lemma: the first "Pagar este documento até" with a token glued to it
   * ends the first such token: no later start inside the token can hold one.
   */
  lemma CodIdentFirst(s: string, p: nat, t: string)
    requires TokenGluedBefore(s, p, t, MarcaPagarDocumento)
    requires forall k :: 0 <= k <= p ==> !GluedAt(s, k, MarcaPagarDocumento)
    ensures forall j :: 0 <= j < p + |t| ==> !GluedAt(s, j, MarcaPagarDocumento)
  {
    var k := p + |t|;
    forall j | p < j < k ensures !GluedAt(s, j, MarcaPagarDocumento) {
      if j + 5 < k {
        assert s[j + 5] == t[j + 5 - p];
      }
      PagarDocumentoApart(s, j, k);
    }
  }

  /**
   * Line 39: the token glued right before the first occurrence of "Pagar
   * este documento até" that has a token glued to it.
   */
  function SearchCodIdent(s: string): (r: Option<string>)
    ensures r.None? <==> forall k :: 0 <= k <= |s| ==> !GluedAt(s, k, MarcaPagarDocumento)
    ensures r.Some? ==>
      exists k: nat :: GluedAt(s, k, MarcaPagarDocumento) && TokenEndingAt(s, k, r.value)
        && forall j :: 0 <= j < k ==> !GluedAt(s, j, MarcaPagarDocumento)
  {
    var hit := SearchTokenBefore(s, MarcaPagarDocumento);
    if hit.None? then None
    else
      var p, t := hit.value.0, hit.value.1;
      TokenEndsAtStart(s, p, t, MarcaPagarDocumento);
      CodIdentFirst(s, p, t);
      Some(t)
  }

  /**
   * Line 41: a token glued right before "Observações". Greedy backtracking
   * takes the last occurrence inside the first token that contains one.
   */
  function SearchVencimentoUp(s: string): (r: Option<string>)
    ensures r.None? <==> forall k :: 0 <= k <= |s| ==> !GluedAt(s, k, MarcaObservacoes)
    ensures r.Some? ==> exists p: nat :: FirstTokenBefore(s, p, r.value, MarcaObservacoes)
  {
    var hit := SearchTokenBefore(s, MarcaObservacoes);
    if hit.None? then None
    else
      assert FirstTokenBefore(s, hit.value.0, hit.value.1, MarcaObservacoes);
      Some(hit.value.1)
  }

  /** Lemma: `<lit>(\S+)` matches at `p` exactly when a non-whitespace character follows `lit`. */
  lemma TokenAfterAtFacts(s: string, p: nat, lit: string)
    ensures TokenAfterAt(s, p, lit).Some? <==> FollowedAt(s, p, lit)
    ensures TokenAfterAt(s, p, lit).Some? ==> TokenAt(s, p + |lit|, TokenAfterAt(s, p, lit).value)
  {
  }

  /** `<lit>(\S+)` anywhere: the token after the first `lit` that is followed by one. */
  function SearchTokenAfter(s: string, lit: string): (r: Option<string>)
    ensures r.None? <==> forall p :: 0 <= p <= |s| ==> !FollowedAt(s, p, lit)
    ensures r.Some? ==>
      exists p: nat :: FollowedAt(s, p, lit) && TokenAt(s, p + |lit|, r.value)
        && forall q :: 0 <= q < p ==> !FollowedAt(s, q, lit)
  {
    var at := (u: string, q: nat) => TokenAfterAt(u, q, lit);
    var m := FirstMatch(s, 0, at);
    if m.None? then
      assert forall q :: 0 <= q <= |s| ==> !FollowedAt(s, q, lit) by {
        forall q | 0 <= q <= |s| ensures !FollowedAt(s, q, lit) {
          TokenAfterScanPassed(s, lit, at, q);
        }
      }
      None
    else
      var p, t := m.value.0, m.value.1;
      assert forall q :: 0 <= q < p ==> !FollowedAt(s, q, lit) by {
        forall q | 0 <= q < p ensures !FollowedAt(s, q, lit) {
          TokenAfterScanPassed(s, lit, at, q);
        }
      }
      TokenAfterAtFacts(s, p, lit);
      assert FollowedAt(s, p, lit) && TokenAt(s, p + |lit|, t);
      Some(t)
  }

  /** Lemma: a scan of `<lit>(\S+)` that has passed `q` saw no `lit` followed by a token there. */
  lemma TokenAfterScanPassed(s: string, lit: string, m: (string, nat) -> Option<string>, q: nat)
    requires forall k: nat :: m(s, k) == TokenAfterAt(s, k, lit)
    requires q <= |s|
    requires FirstMatch(s, 0, m).None? || (FirstMatch(s, 0, m).Some? && q < FirstMatch(s, 0, m).value.0)
    ensures !FollowedAt(s, q, lit)
  {
    FirstMatchMisses(s, 0, m, q);
    TokenAfterAtFacts(s, q, lit);
  }

  /** Line 42: the token after the first "Pagar até: " that is followed by one. */
  function SearchVencimentoDown(s: string): (r: Option<string>)
    ensures r.None? <==> forall p :: 0 <= p <= |s| ==> !FollowedAt(s, p, MarcaPagarAte)
    ensures r.Some? ==>
      exists p: nat :: FollowedAt(s, p, MarcaPagarAte) && TokenAt(s, p + |MarcaPagarAte|, r.value)
        && forall q :: 0 <= q < p ==> !FollowedAt(s, q, MarcaPagarAte)
  {
    SearchTokenAfter(s, MarcaPagarAte)
  }

  /** Line 50: the token after the first "PA:" that is followed by one. */
  function SearchCompetenciaESocial(s: string): (r: Option<string>)
    ensures r.None? <==> forall p :: 0 <= p <= |s| ==> !FollowedAt(s, p, MarcaPa)
    ensures r.Some? ==>
      exists p: nat :: FollowedAt(s, p, MarcaPa) && TokenAt(s, p + |MarcaPa|, r.value)
        && forall q :: 0 <= q < p ==> !FollowedAt(s, q, MarcaPa)
  {
    SearchTokenAfter(s, MarcaPa)
  }

  /** "Data de Vencimento" ending a line, and a dd/dd/dddd date opening the next. */
  predicate DataVencimentoShapeAt(s: string, p: nat) {
    LiteralAt(s, p, MarcaDataVencimento) && ShapeAt(s, p + |MarcaDataVencimento|, FormatoData)
  }

  /** Line 51: the dd/dd/dddd date opening the line after the first such label. */
  function SearchDataVencimento(s: string): (r: Option<string>)
    ensures r.None? <==> forall p :: 0 <= p <= |s| ==> !DataVencimentoShapeAt(s, p)
    ensures r.Some? ==>
      ShapeAt(r.value, 0, FormatoData) && |r.value| == |FormatoData|
      && exists p: nat ::
           && DataVencimentoShapeAt(s, p)
           && s[p + |MarcaDataVencimento|..p + |MarcaDataVencimento| + |FormatoData|] == r.value
           && forall q :: 0 <= q < p ==> !DataVencimentoShapeAt(s, q)
  {
    var m := FirstMatch(s, 0, DataVencimentoAt);
    assert forall q :: 0 <= q <= |s| && (m.None? || q < m.value.0) ==> !DataVencimentoShapeAt(s, q) by {
      forall q | 0 <= q <= |s| && (m.None? || q < m.value.0) ensures !DataVencimentoShapeAt(s, q) {
        FirstMatchMisses(s, 0, DataVencimentoAt, q);
      }
    }
    match m
    case Some((p, t)) =>
      assert DataVencimentoShapeAt(s, p);
      Some(t)
    case None => None
  }

  /**
   * The normal layout at `p`: "PA:", a token up to `g`, whitespace up to
   * `h`, then "Vencimento:" and at least one more character on its line.
   */
  predicate NormalLayoutAt(s: string, p: nat, g: nat, h: nat) {
    && LiteralAt(s, p, MarcaPa) && p + |MarcaPa| < g < h && VencimentoLineAt(s, h)
    && (forall i :: p + |MarcaPa| <= i < g ==> IsNonSpace(s[i]))
    && (forall i :: g <= i < h ==> IsSpace(s[i]))
  }

  /** The two groups the normal layout at `p`, `g`, `h` captures. */
  function NormalLayoutGroups(s: string, p: nat, g: nat, h: nat): (string, string)
    requires NormalLayoutAt(s, p, g, h)
  {
    var b := h + |MarcaVencimento|;
    (s[p + |MarcaPa|..g], s[b..LineEnd(s, b)])
  }

  /** Lemma: where the normal layout starts, the pattern of line 40 matches and captures its groups. */
  lemma NormalLayoutMatches(s: string, p: nat, g: nat, h: nat)
    requires NormalLayoutAt(s, p, g, h)
    ensures CompVencAt(s, p) == Some(NormalLayoutGroups(s, p, g, h))
  {
    var a := p + |MarcaPa|;
    LiteralAtChar(s, h, MarcaVencimento, 0);
    SpanIs(s, a, g, IsNonSpace);
    SpanIs(s, g, h, IsSpace);
    var ok := (k: nat) => VencimentoLineAt(s, k);
    assert ok(h);
    assert LastSplit(g + 1, h, ok) == Some(h);
  }

  /** Lemma: every match of the pattern of line 40 is a normal layout. */
  lemma CompVencAtHit(s: string, p: nat)
    requires CompVencAt(s, p).Some?
    ensures exists g: nat, h: nat :: NormalLayoutAt(s, p, g, h) && CompVencAt(s, p).value == NormalLayoutGroups(s, p, g, h)
  {
    var a := p + |MarcaPa|;
    var g := Span(s, a, IsNonSpace);
    var f := Span(s, g, IsSpace);
    var h := LastSplit(g + 1, f, (k: nat) => VencimentoLineAt(s, k)).value;
    assert NormalLayoutAt(s, p, g, h);
  }

  /** Line 40: the leftmost normal-layout "PA:<token> Vencimento:<rest of line>". */
  function SearchCompVenc(s: string): (r: Option<(string, string)>)
    ensures r.None? <==> forall p: nat, g: nat, h: nat :: !NormalLayoutAt(s, p, g, h)
    ensures r.Some? ==>
      exists p: nat, g: nat, h: nat :: NormalLayoutAt(s, p, g, h) && r.value == NormalLayoutGroups(s, p, g, h)
        && forall q: nat, g': nat, h': nat :: q < p ==> !NormalLayoutAt(s, q, g', h')
  {
    var m := FirstMatch(s, 0, CompVencAt);
    assert forall q: nat, g: nat, h: nat :: (m.None? || q < m.value.0) ==> !NormalLayoutAt(s, q, g, h) by {
      forall q: nat, g: nat, h: nat | (m.None? || q < m.value.0) ensures !NormalLayoutAt(s, q, g, h) {
        if NormalLayoutAt(s, q, g, h) {
          NormalLayoutMatches(s, q, g, h);
          FirstMatchMisses(s, 0, CompVencAt, q);
        }
      }
    }
    match m
    case Some((p, v)) =>
      CompVencAtHit(s, p);
      Some(v)
    case None => None
  }

  /** Digits, a comma, then one or two digits. */
  predicate IsAmount(t: string) {
    var d := Span(t, 0, IsDigit);
    0 < d && d + 2 <= |t| <= d + 3 && t[d] == ',' && forall i :: d < i < |t| ==> IsDigit(t[i])
  }

  /**
   * The amount `t` follows "Valor:" at `p` once the whitespace after the
   * label is skipped, and takes a second decimal whenever one is there
   * (`\d{1,2}` is greedy).
   */
  predicate AmountAfterLabel(s: string, p: nat, t: string) {
    && LiteralAt(s, p, MarcaValor)
    && var f := Span(s, p + |MarcaValor|, IsSpace);
       && f + |t| <= |s| && s[f..f + |t|] == t && IsAmount(t)
       && (|t| == Span(t, 0, IsDigit) + 2 ==> f + |t| == |s| || !IsDigit(s[f + |t|]))
  }

  /** Lemma: what the pattern of line 44 captures at `p`. */
  lemma ValorAtHit(s: string, p: nat)
    requires ValorAt(s, p).Some?
    ensures AmountAfterLabel(s, p, ValorAt(s, p).value)
  {
    var f := Span(s, p + |MarcaValor|, IsSpace);
    var d := Span(s, f, IsDigit);
    var t := ValorAt(s, p).value;
    SpanIs(t, 0, d - f, IsDigit);
  }

  /** Lemma: an amount after the label at `p` is exactly what the pattern of line 44 captures there. */
  lemma ValorAtOnly(s: string, p: nat, t: string)
    ensures AmountAfterLabel(s, p, t) ==> ValorAt(s, p) == Some(t)
  {
    if AmountAfterLabel(s, p, t) {
      var f := Span(s, p + |MarcaValor|, IsSpace);
      var n := Span(t, 0, IsDigit);
      assert forall k :: 0 <= k < |t| ==> s[f + k] == t[k];
      SpanIs(s, f, f + n, IsDigit);
      var d := f + n;
      assert IsDigit(t[n + 1]) && s[d + 1] == t[n + 1];
      assert d != f && d + 1 < |s| && s[d] == ',' && IsDigit(s[d + 1]);
      var e := if d + 2 < |s| && IsDigit(s[d + 2]) then d + 3 else d + 2;
      assert e == f + |t|;
      assert ValorAt(s, p) == Some(s[f..e]);
    }
  }

  /** Line 44: the amount after the first "Valor:" that is followed by one. */
  function SearchValor(s: string): (r: Option<string>)
    ensures r.None? <==> forall p: nat, t :: !AmountAfterLabel(s, p, t)
    ensures r.Some? ==>
      exists p: nat :: AmountAfterLabel(s, p, r.value)
        && forall q: nat, t :: q < p ==> !AmountAfterLabel(s, q, t)
  {
    var m := FirstMatch(s, 0, ValorAt);
    assert forall q: nat, t :: (m.None? || q < m.value.0) ==> !AmountAfterLabel(s, q, t) by {
      forall q: nat, t | m.None? || q < m.value.0 ensures !AmountAfterLabel(s, q, t) {
        if q <= |s| {
          FirstMatchMisses(s, 0, ValorAt, q);
        }
        ValorAtOnly(s, q, t);
      }
    }
    match m
    case Some((p, t)) =>
      ValorAtHit(s, p);
      Some(t)
    case None => None
  }

  /** Lemma: one position where the pattern of line 44 matches is enough for the search to succeed. */
  lemma ValorFound(s: string, p: nat)
    requires ValorAt(s, p).Some?
    ensures SearchValor(s).Some?
  {
    if FirstMatch(s, 0, ValorAt).None? {
      FirstMatchMisses(s, 0, ValorAt, p);
    }
  }

  /**
   * Lemma: an amount written with a thousands dot ("1.234,56") does not
   * match after a "Valor:" label; when every label is written that way the
   * search fails.
   */
  lemma PontoDeMilharRejeitado(s: string)
    requires forall p :: 0 <= p <= |s| && LiteralAt(s, p, MarcaValor) ==>
      var d := Span(s, Span(s, p + |MarcaValor|, IsSpace), IsDigit);
      d < |s| && s[d] == '.'
    ensures SearchValor(s).None?
  {
  }

  /** Lemma: "1234,56" is read after the label, "1.234,56" is not. */
  lemma ValorExemplo()
    ensures SearchValor("Valor: 1234,56") == Some("1234,56")
  {
    var plain := "Valor: 1234,56";
    SpanIs(plain, 6, 7, IsSpace);
    SpanIs(plain, 7, 11, IsDigit);
    assert LiteralAt(plain, 0, MarcaValor) by { assert plain[0..6] == MarcaValor; }
    assert plain[7..14] == "1234,56";
    assert ValorAt(plain, 0) == Some("1234,56");
  }

  lemma PontoDeMilharExemplo()
    ensures SearchValor("Valor: 1.234,56").None?
  {
    var dotted := "Valor: 1.234,56";
    SpanIs(dotted, 6, 7, IsSpace);
    SpanIs(dotted, 7, 8, IsDigit);
    forall p | 0 < p <= |dotted| ensures !LiteralAt(dotted, p, MarcaValor) {
      LiteralAtStart(dotted, p, MarcaValor);
    }
    PontoDeMilharRejeitado(dotted);
  }
}
