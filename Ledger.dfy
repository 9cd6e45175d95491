/**
 * The per-company ledger of core/DatabaseManager.py. The SQLite table
 * `guias` is a sequence of rows in insertion order together with the
 * AUTOINCREMENT counter; the UNIQUE constraint on `caminho_arquivo` is the
 * class invariant. Connection set-up, commits and logging are not modelled.
 */
module Ledger {
  import opened Wrappers
  import opened Models

  /** A row of `guias`: the AUTOINCREMENT id and the stored columns. */
  datatype Registro = Registro(id: nat, guia: GuiaMetadados)

  /** Row `i` holds the file `c`. */
  predicate NoCaminho(rs: seq<Registro>, i: int, c: string) {
    0 <= i < |rs| && rs[i].guia.caminhoArquivo == c
  }

  predicate TemCaminho(rs: seq<Registro>, c: string) {
    exists i :: 0 <= i < |rs| && NoCaminho(rs, i, c)
  }

  /** The UNIQUE constraint on `caminho_arquivo`. */
  predicate CaminhosUnicos(rs: seq<Registro>) {
    forall i, j :: 0 <= i < j < |rs| ==> rs[i].guia.caminhoArquivo != rs[j].guia.caminhoArquivo
  }

  /** AUTOINCREMENT: ids grow with insertion order and stay below the counter. */
  predicate IdsValidos(rs: seq<Registro>, proximo: nat) {
    && (forall i, j :: 0 <= i < j < |rs| ==> rs[i].id < rs[j].id)
    && (forall i :: 0 <= i < |rs| ==> rs[i].id < proximo)
  }

  predicate TabelaValida(rs: seq<Registro>, proximo: nat) {
    CaminhosUnicos(rs) && IdsValidos(rs, proximo)
  }

  lemma TemCaminhoCons(rs: seq<Registro>, c: string)
    requires rs != []
    ensures TemCaminho(rs, c) <==> rs[0].guia.caminhoArquivo == c || TemCaminho(rs[1..], c)
  {
    if rs[0].guia.caminhoArquivo == c {
      assert NoCaminho(rs, 0, c);
    }
    if TemCaminho(rs[1..], c) {
      var i :| 0 <= i < |rs[1..]| && NoCaminho(rs[1..], i, c);
      assert NoCaminho(rs, i + 1, c);
    }
    if TemCaminho(rs, c) && rs[0].guia.caminhoArquivo != c {
      var i :| 0 <= i < |rs| && NoCaminho(rs, i, c);
      assert NoCaminho(rs[1..], i - 1, c);
    }
  }

  /** The row holding file `c`, if any. */
  function PosicaoDoCaminho(rs: seq<Registro>, c: string): (r: Option<nat>)
    ensures r.None? <==> !TemCaminho(rs, c)
    ensures r.Some? ==> NoCaminho(rs, r.value, c)
  {
    if rs == [] then None
    else
      TemCaminhoCons(rs, c);
      if rs[0].guia.caminhoArquivo == c then Some(0)
      else
        match PosicaoDoCaminho(rs[1..], c)
        case None => None
        case Some(k) => Some(k + 1)
  }

  /** `UPDATE guias SET caminho_arquivo = novo WHERE caminho_arquivo = antigo`. */
  function Renomeado(rs: seq<Registro>, antigo: string, novo: string): (r: seq<Registro>)
    ensures |r| == |rs|
    ensures forall i :: 0 <= i < |rs| ==> r[i].id == rs[i].id
    ensures forall i :: NoCaminho(rs, i, antigo) ==> r[i].guia == rs[i].guia.(caminhoArquivo := novo)
    ensures forall i :: 0 <= i < |rs| && !NoCaminho(rs, i, antigo) ==> r[i] == rs[i]
  {
    seq(|rs|, i requires 0 <= i < |rs| =>
      if rs[i].guia.caminhoArquivo == antigo then Registro(rs[i].id, rs[i].guia.(caminhoArquivo := novo)) else rs[i])
  }

  /** `DELETE FROM guias WHERE caminho_arquivo = c`. */
  function Removido(rs: seq<Registro>, c: string): (r: seq<Registro>)
    ensures |r| <= |rs|
    ensures forall x :: x in r <==> x in rs && x.guia.caminhoArquivo != c
    ensures !TemCaminho(rs, c) ==> r == rs
  {
    if rs == [] then []
    else
      var rest := Removido(rs[1..], c);
      TemCaminhoCons(rs, c);
      assert rs == [rs[0]] + rs[1..];
      if rs[0].guia.caminhoArquivo == c then rest else [rs[0]] + rest
  }

  /**
   * The row `find_duplicate_guia` selects: among the rows matching `g`'s
   * (competencia, vencimento, valor), one with the latest
   * `data_processamento`; on a tie the earliest inserted of them.
   */
  function UltimoPorTripla(rs: seq<Registro>, g: GuiaMetadados): (r: Option<GuiaMetadados>)
    ensures r.None? <==> forall i :: 0 <= i < |rs| ==> !MesmaTripla(rs[i].guia, g)
    ensures r.Some? ==>
      && (exists i :: 0 <= i < |rs| && rs[i].guia == r.value)
      && MesmaTripla(r.value, g)
      && forall i :: 0 <= i < |rs| && MesmaTripla(rs[i].guia, g) ==>
           rs[i].guia.dataProcessamento <= r.value.dataProcessamento
  {
    if rs == [] then None
    else
      var rest := UltimoPorTripla(rs[1..], g);
      assert forall i :: 1 <= i < |rs| ==> rs[i] == rs[1..][i - 1];
      assert rest.Some? ==> exists i :: 0 <= i < |rs| && rs[i].guia == rest.value by {
        if rest.Some? {
          var k :| 0 <= k < |rs[1..]| && rs[1..][k].guia == rest.value;
          assert rs[k + 1].guia == rest.value;
        }
      }
      if !MesmaTripla(rs[0].guia, g) then rest
      else if rest.Some? && rest.value.dataProcessamento > rs[0].guia.dataProcessamento then rest
      else Some(rs[0].guia)
  }

  /** The stored columns of every row, in table order. */
  function Guias(rs: seq<Registro>): (r: seq<GuiaMetadados>)
    ensures |r| == |rs| && forall i :: 0 <= i < |rs| ==> r[i] == rs[i].guia
  {
    seq(|rs|, i requires 0 <= i < |rs| => rs[i].guia)
  }

  /** `ORDER BY data_processamento DESC`. */
  predicate Decrescente(s: seq<GuiaMetadados>) {
    forall i, j :: 0 <= i < j < |s| ==> s[i].dataProcessamento >= s[j].dataProcessamento
  }

  function InserirOrdenado(x: GuiaMetadados, s: seq<GuiaMetadados>): (r: seq<GuiaMetadados>)
    requires Decrescente(s)
    ensures Decrescente(r)
    ensures multiset(r) == multiset(s) + multiset{x}
  {
    if s == [] then [x]
    else if s[0].dataProcessamento <= x.dataProcessamento then [x] + s
    else
      var rest := InserirOrdenado(x, s[1..]);
      assert s == [s[0]] + s[1..];
      assert forall y :: y in s[1..] ==> y.dataProcessamento <= s[0].dataProcessamento;
      LimitePorMultiset(rest, s[1..], x, s[0].dataProcessamento);
      DecrescenteCons(s[0], rest);
      [s[0]] + rest
  }

  /** Lemma: a row no older than every row of a sorted list can go in front of it. */
  lemma DecrescenteCons(a: GuiaMetadados, r: seq<GuiaMetadados>)
    requires Decrescente(r) && forall k :: 0 <= k < |r| ==> r[k].dataProcessamento <= a.dataProcessamento
    ensures Decrescente([a] + r)
  {
    forall i, j | 0 <= i < j < |r| + 1
      ensures ([a] + r)[i].dataProcessamento >= ([a] + r)[j].dataProcessamento
    {
      assert ([a] + r)[j] == r[j - 1];
      if i > 0 { assert ([a] + r)[i] == r[i - 1]; }
    }
  }

  /** Lemma: a bound on the dates of `s` and of `x` bounds every rearrangement of `s` plus `x`. */
  lemma LimitePorMultiset(r: seq<GuiaMetadados>, s: seq<GuiaMetadados>, x: GuiaMetadados, b: int)
    requires multiset(r) == multiset(s) + multiset{x}
    requires x.dataProcessamento <= b && forall y :: y in s ==> y.dataProcessamento <= b
    ensures forall k :: 0 <= k < |r| ==> r[k].dataProcessamento <= b
  {
    forall k | 0 <= k < |r|
      ensures r[k].dataProcessamento <= b
    {
      assert r[k] in multiset(r);
      assert r[k] == x || r[k] in multiset(s);
    }
  }

  /** The rows in the order `get_all_guias` asks for, latest first. */
  function OrdenarPorData(s: seq<GuiaMetadados>): (r: seq<GuiaMetadados>)
    ensures Decrescente(r)
    ensures multiset(r) == multiset(s)
  {
    if s == [] then []
    else
      assert s == [s[0]] + s[1..];
      InserirOrdenado(s[0], OrdenarPorData(s[1..]))
  }

  /** Lemma: appending a row for an unused file with the next id keeps the table valid. */
  lemma InserirMantemValida(rs: seq<Registro>, proximo: nat, g: GuiaMetadados)
    requires TabelaValida(rs, proximo) && !TemCaminho(rs, g.caminhoArquivo)
    ensures TabelaValida(rs + [Registro(proximo, g)], proximo + 1)
  {
    var rs' := rs + [Registro(proximo, g)];
    forall i, j | 0 <= i < j < |rs'|
      ensures rs'[i].guia.caminhoArquivo != rs'[j].guia.caminhoArquivo
    {
      if j == |rs| {
        assert !NoCaminho(rs, i, g.caminhoArquivo);
      }
    }
  }

  /**
   * Lemma: renaming keeps the table valid when the new name is unused or
   * equal to the old one, the case in which SQLite accepts the UPDATE.
   */
  lemma RenomearMantemValida(rs: seq<Registro>, proximo: nat, antigo: string, novo: string)
    requires TabelaValida(rs, proximo)
    requires novo == antigo || !TemCaminho(rs, novo)
    ensures TabelaValida(Renomeado(rs, antigo, novo), proximo)
  {
    var rs' := Renomeado(rs, antigo, novo);
    forall i, j | 0 <= i < j < |rs'|
      ensures rs'[i].guia.caminhoArquivo != rs'[j].guia.caminhoArquivo
    {
      assert (!NoCaminho(rs, i, novo) && !NoCaminho(rs, j, novo)) || novo == antigo;
    }
  }

  /**
   * Lemma: with unique paths, the UPDATE touches exactly the one row that
   * held the old path; every other row is as it was.
   */
  lemma RenomearUmaLinha(rs: seq<Registro>, antigo: string, novo: string, i: nat)
    requires CaminhosUnicos(rs) && NoCaminho(rs, i, antigo)
    ensures Renomeado(rs, antigo, novo)[i] == Registro(rs[i].id, rs[i].guia.(caminhoArquivo := novo))
    ensures forall j :: 0 <= j < |rs| && j != i ==> Renomeado(rs, antigo, novo)[j] == rs[j]
    ensures Renomeado(rs, antigo, novo) == rs[i := Registro(rs[i].id, rs[i].guia.(caminhoArquivo := novo))]
  {
    var rs' := Renomeado(rs, antigo, novo);
    forall j | 0 <= j < |rs| && j != i
      ensures rs'[j] == rs[j]
    {
      assert rs[j].guia.caminhoArquivo != antigo by {
        if j < i {
          assert rs[j].guia.caminhoArquivo != rs[i].guia.caminhoArquivo;
        } else {
          assert rs[i].guia.caminhoArquivo != rs[j].guia.caminhoArquivo;
        }
      }
    }
  }

  lemma CaudaValida(rs: seq<Registro>, proximo: nat)
    requires rs != [] && TabelaValida(rs, proximo)
    ensures TabelaValida(rs[1..], proximo)
    ensures forall y :: y in rs[1..] ==> rs[0].id < y.id && rs[0].guia.caminhoArquivo != y.guia.caminhoArquivo
  {
    forall y | y in rs[1..]
      ensures rs[0].id < y.id && rs[0].guia.caminhoArquivo != y.guia.caminhoArquivo
    {
      var k :| 0 <= k < |rs[1..]| && rs[1..][k] == y;
      assert rs[k + 1] == y;
    }
  }

  lemma ConsValida(x: Registro, r: seq<Registro>, proximo: nat)
    requires TabelaValida(r, proximo) && x.id < proximo
    requires forall y :: y in r ==> x.id < y.id && x.guia.caminhoArquivo != y.guia.caminhoArquivo
    ensures TabelaValida([x] + r, proximo)
  {
    var r' := [x] + r;
    forall i, j | 0 <= i < j < |r'|
      ensures r'[i].id < r'[j].id && r'[i].guia.caminhoArquivo != r'[j].guia.caminhoArquivo
    {
      if i == 0 {
        assert r'[j] in r;
      } else {
        assert r'[i] == r[i - 1] && r'[j] == r[j - 1];
      }
    }
  }

  /** Lemma: deleting keeps the rows that stay in their order, so the table stays valid. */
  lemma {:induction false} RemoverMantemValida(rs: seq<Registro>, proximo: nat, c: string)
    requires TabelaValida(rs, proximo)
    ensures TabelaValida(Removido(rs, c), proximo)
  {
    if rs != [] {
      CaudaValida(rs, proximo);
      RemoverMantemValida(rs[1..], proximo, c);
      if rs[0].guia.caminhoArquivo != c {
        ConsValida(rs[0], Removido(rs[1..], c), proximo);
      }
    }
  }

  /** Lemma: with unique paths, deleting an existing path removes exactly its one row. */
  lemma {:induction false} RemoverUmaLinha(rs: seq<Registro>, c: string, i: nat)
    requires CaminhosUnicos(rs) && NoCaminho(rs, i, c)
    ensures Removido(rs, c) == rs[..i] + rs[i + 1..]
  {
    CaminhosUnicosCauda(rs);
    if i == 0 {
      assert !TemCaminho(rs[1..], c) by {
        forall k | 0 <= k < |rs[1..]|
          ensures !NoCaminho(rs[1..], k, c)
        {
          assert rs[1..][k] == rs[k + 1];
        }
      }
      assert Removido(rs, c) == Removido(rs[1..], c);
    } else {
      assert rs[0].guia.caminhoArquivo != c;
      assert Removido(rs, c) == [rs[0]] + Removido(rs[1..], c);
      assert NoCaminho(rs[1..], i - 1, c);
      RemoverUmaLinha(rs[1..], c, i - 1);
      SemLinhaCons(rs, i);
    }
  }

  lemma CaminhosUnicosCauda(rs: seq<Registro>)
    requires rs != [] && CaminhosUnicos(rs)
    ensures CaminhosUnicos(rs[1..])
  {
    forall i, j | 0 <= i < j < |rs| - 1
      ensures rs[1..][i].guia.caminhoArquivo != rs[1..][j].guia.caminhoArquivo
    {
      assert rs[1..][i] == rs[i + 1] && rs[1..][j] == rs[j + 1];
    }
  }

  /** Lemma: dropping row `i` of `rs` keeps its head in front of the tail with row `i - 1` dropped. */
  lemma SemLinhaCons<T>(rs: seq<T>, i: nat)
    requires 0 < i < |rs|
    ensures rs[..i] + rs[i + 1..] == [rs[0]] + (rs[1..][..i - 1] + rs[1..][i..])
  {
    assert rs[..i] == [rs[0]] + rs[1..][..i - 1];
    assert rs[i + 1..] == rs[1..][i..];
  }

  /** A company's ledger: the `guias` table of its `.db` file. */
  class DatabaseManager {
    var guias: seq<Registro>
    var proximoId: nat

    /** The UNIQUE path constraint and the AUTOINCREMENT discipline. */
    predicate Valid()
      reads this
    {
      TabelaValida(guias, proximoId)
    }

    /** Opening the file: the rows already stored and the counter SQLite keeps for them. */
    constructor (existentes: seq<Registro>, proximo: nat)
      requires TabelaValida(existentes, proximo)
      ensures Valid() && guias == existentes && proximoId == proximo
    {
      guias := existentes;
      proximoId := proximo;
    }

    /**
     * `insert_guia`: True and one new row with a fresh id when the path is
     * unused; False and nothing changed when the UNIQUE constraint refuses it.
     */
    method InsertGuia(g: GuiaMetadados) returns (ok: bool)
      requires Valid()
      modifies this
      ensures Valid()
      ensures ok <==> !TemCaminho(old(guias), g.caminhoArquivo)
      ensures ok ==> guias == old(guias) + [Registro(old(proximoId), g)] && proximoId == old(proximoId) + 1
      ensures !ok ==> guias == old(guias) && proximoId == old(proximoId)
    {
      if PosicaoDoCaminho(guias, g.caminhoArquivo).Some? {
        ok := false;
      } else {
        InserirMantemValida(guias, proximoId, g);
        guias := guias + [Registro(proximoId, g)];
        proximoId := proximoId + 1;
        ok := true;
      }
    }

    /**
     * `find_duplicate_guia`: None exactly when no row has the same period,
     * due date and amount; otherwise a matching row processed last.
     */
    method FindDuplicateGuia(g: GuiaMetadados) returns (r: Option<GuiaMetadados>)
      ensures r.None? <==> forall i :: 0 <= i < |guias| ==> !MesmaTripla(guias[i].guia, g)
      ensures r.Some? ==>
        && (exists i :: 0 <= i < |guias| && guias[i].guia == r.value)
        && MesmaTripla(r.value, g)
        && forall i :: 0 <= i < |guias| && MesmaTripla(guias[i].guia, g) ==>
             guias[i].guia.dataProcessamento <= r.value.dataProcessamento
    {
      r := UltimoPorTripla(guias, g);
    }

    /**
     * `get_all_guias` as written: line 139 prints `cursor.fetchall()`, which
     * consumes every row, so the list built on line 140 is always empty.
     */
    method GetAllGuias() returns (r: seq<GuiaMetadados>)
      ensures r == []
    {
      var cursor := new Cursor(OrdenarPorData(Guias(guias)));
      var impressas := cursor.FetchAll();
      r := cursor.FetchAll();
    }

    /** `get_all_guias` as intended: every row, latest `data_processamento` first. */
    method GetAllGuiasOrdenadas() returns (r: seq<GuiaMetadados>)
      ensures Decrescente(r)
      ensures multiset(r) == multiset(Guias(guias))
    {
      r := OrdenarPorData(Guias(guias));
    }

    /**
     * `update_guia_path`: True when a row held the old path and the new one
     * is free (an UPDATE onto a used path raises `IntegrityError`, caught as
     * `sqlite3.Error`); then that row alone is renamed. Otherwise nothing changes.
     */
    method UpdateGuiaPath(antigo: string, novo: string) returns (ok: bool)
      requires Valid()
      modifies this
      ensures Valid()
      ensures ok <==> TemCaminho(old(guias), antigo) && (novo == antigo || !TemCaminho(old(guias), novo))
      ensures ok ==> guias == Renomeado(old(guias), antigo, novo)
      ensures !ok ==> guias == old(guias)
      ensures proximoId == old(proximoId)
    {
      if novo != antigo && PosicaoDoCaminho(guias, novo).Some? {
        ok := false;
      } else if PosicaoDoCaminho(guias, antigo).None? {
        ok := false;
      } else {
        RenomearMantemValida(guias, proximoId, antigo, novo);
        guias := Renomeado(guias, antigo, novo);
        ok := true;
      }
    }

    /**
     * `delete_guia`: True exactly when a row held the path; the rows without
     * it stay, in order. The counter is not rewound.
     */
    method DeleteGuia(c: string) returns (ok: bool)
      requires Valid()
      modifies this
      ensures Valid()
      ensures ok <==> TemCaminho(old(guias), c)
      ensures guias == Removido(old(guias), c) && proximoId == old(proximoId)
    {
      ok := PosicaoDoCaminho(guias, c).Some?;
      RemoverMantemValida(guias, proximoId, c);
      guias := Removido(guias, c);
    }
  }

  /** A `sqlite3` cursor after `execute`: the result rows it has not handed out yet. */
  class Cursor {
    var pendentes: seq<GuiaMetadados>

    constructor (linhas: seq<GuiaMetadados>)
      ensures pendentes == linhas
    {
      pendentes := linhas;
    }

    /** `fetchall()`: every pending row, after which none is left. */
    method FetchAll() returns (r: seq<GuiaMetadados>)
      modifies this
      ensures r == old(pendentes) && pendentes == []
    {
      r := pendentes;
      pendentes := [];
    }
  }

  /**
   * A slip inserted into an empty ledger is missing from `GetAllGuias` and
   * present in `GetAllGuiasOrdenadas`.
   */
  method ListarAposInserir(g: GuiaMetadados) returns (todas: seq<GuiaMetadados>, ordenadas: seq<GuiaMetadados>)
    ensures todas == [] && ordenadas == [g]
  {
    var db := new DatabaseManager([], 1);
    var ok := db.InsertGuia(g);
    assert db.guias == [Registro(1, g)];
    todas := db.GetAllGuias();
    ordenadas := db.GetAllGuiasOrdenadas();
    assert Guias(db.guias) == [g];
    assert |ordenadas| == 1 && ordenadas[0] in multiset{g};
  }
}
