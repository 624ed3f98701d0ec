/** The `alteracoes` list the edit pass keeps for each file: one entry per change it reports. */
module Changes {

  /** One reported change; the comment gives the message the script prints for it. */
  datatype Change =
    | IssuerField(tag: string)      // "Emitente: <tag> alterado"
    | ProductField(tag: string)     // "Produto: <tag> alterado"
    | TaxField(path: string)        // "Imposto: <path> alterado"
    | IcmsCst                       // "CST do ICMS alterado"
    | IpiBaseZeroed                 // "IPI do item: Base de cálculo (vBC) zerada"
    | IpiCst                        // "CST do IPI alterado"
    | PisCst                        // "CST do PIS alterado"
    | CofinsCst                     // "CST do COFINS alterado"
    | ItemIpiZeroed                 // "IPI do item: Valor (vIPI) zerado"
    | ItemIpiRateZeroed             // "IPI do item: Alíquota (pIPI) zerada"
    | TotalIpi                      // "Total vIPI recalculado"
    | TotalInvoice                  // "Total vNF recalculado"
    | DateField(tag: string)        // "Data: <tag> alterada"
    | ProtocolReceived              // "Protocolo: <dhRecbto> alterado"
    | KeyId(newKey: string)         // "Chave de Acesso ID alterada para: {newKey}"
    | ProtocolKey                   // "Chave de Acesso do Protocolo alterada"
    | Reference(newKey: string)     // "Chave de Referência alterada para: {newKey}"
    | VoidingCnpj                   // "Inutilização: <CNPJ> alterado"
    | VoidingYear                   // "Inutilização: <ano> alterado"
    | VoidingReceived               // "Inutilização: <dhRecbto> alterado"

  /** A value after some edits, with the change list as it then stands. */
  datatype Edited<T> = Edited(value: T, log: seq<Change>)

  /** `if message not in alteracoes: alteracoes.append(message)`. */
  function Note(log: seq<Change>, c: Change): (r: seq<Change>)
    ensures c in r && |log| <= |r| && r[..|log|] == log
    ensures multiset(r)[c] == if c in log then multiset(log)[c] else 1
    ensures forall d | d != c :: multiset(r)[d] == multiset(log)[d]
  {
    if c in log then log else log + [c]
  }

  /** The change list only grows: `before` is a prefix of `log`. */
  predicate Extends(log: seq<Change>, before: seq<Change>)
  {
    |before| <= |log| && log[..|before|] == before
  }
}
