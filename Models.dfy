/**
 * The record types of core/models.py. `valor` is kept as the opaque text
 * the slip shows and is only ever compared for equality;
 * `data_processamento` is a timestamp supplied by the caller.
 */
module Models {
  import opened Wrappers

  /** A registered company (core/models.py:4-10). */
  datatype Empresa = Empresa(
    cnpj: string,
    razaoSocial: string,
    nomeFantasia: string,
    pasta: string,
    nomesAnteriores: Option<seq<string>>)

  /** One slip as the ledger stores it (core/models.py:12-19). */
  datatype GuiaMetadados = GuiaMetadados(
    competencia: string,
    vencimento: string,
    valor: string,
    numeroDocumento: string,
    caminhoArquivo: string,
    dataProcessamento: int)

  /** Two slips for the same period, due date and amount. */
  predicate MesmaTripla(a: GuiaMetadados, b: GuiaMetadados) {
    a.competencia == b.competencia && a.vencimento == b.vencimento && a.valor == b.valor
  }
}
