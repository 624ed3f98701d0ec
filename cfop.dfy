/** The four operation-code (CFOP) tables that drive renaming and IPI zeroing. */
module Cfop {

  const Sales: seq<string> :=
    ["5404", "6404", "5108", "6108", "5405", "6405", "5102", "6102", "5105", "6105", "5106", "6106", "5551"]
  const Devolutions: seq<string> := ["1201", "2201", "1202", "1410", "2410", "2102", "2202", "2411"]
  const Returns: seq<string> := ["1949", "2949", "5902", "6902"]
  const Shipments: seq<string> := ["5949", "5156", "6152", "6949", "6905", "5901", "6901"]

  /** The tables that trigger IPI zeroing (line 387). */
  predicate ShipmentOrReturn(cfop: string) { cfop in Shipments || cfop in Returns }

  /** No code is in two tables, so the order of the tests only matters for the reference checks. */
  lemma TablesDisjoint(c: string)
    ensures !(c in Sales && c in Devolutions) && !(c in Sales && c in Returns)
    ensures !(c in Sales && c in Shipments) && !(c in Devolutions && c in Returns)
    ensures !(c in Devolutions && c in Shipments) && !(c in Returns && c in Shipments)
  {
  }
}
