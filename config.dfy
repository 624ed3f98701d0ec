/** The per-company configuration the two passes read (`constantes_empresa`), already loaded. */
module Config {
  import opened Wrappers
  import opened AccessKey

  predicate DistinctKeys(e: seq<(string, string)>)
  {
    forall i, j | 0 <= i < j < |e| :: e[i].0 != e[j].0
  }

  /** A JSON object as Python's dict holds it: its entries in order, each key once. */
  type Entries = e: seq<(string, string)> | DistinctKeys(e) witness []

  /** `dict.get(key)`. */
  function Lookup(e: seq<(string, string)>, key: string): Option<string>
  {
    if e == [] then None else if e[0].0 == key then Some(e[0].1) else Lookup(e[1..], key)
  }

  /** The `alterar` switches. */
  datatype Toggles = Toggles(
    issuer: bool, products: bool, taxes: bool, date: bool, refNFe: bool, cst: bool, zeroIpi: bool)

  /** `data.nova_data`: missing or empty, a string `strptime(..., "%d/%m/%Y")` rejects, or a date. */
  datatype DateSetting = Unset | Unparsable | Parsed(date: Date)

  /** The settings `editar_arquivos` reads; `None` is a missing entry. */
  datatype EditConfig = EditConfig(
    alter: Toggles,
    issuer: Option<Entries>,
    product: Option<Entries>,
    taxes: Option<Entries>,
    newDate: DateSetting,
    cstMap: map<string, map<string, string>>)

  /** Python truthiness of an optional dict: present and not empty. */
  predicate NonEmpty(e: Option<Entries>) { e.Some? && |e.value| > 0 }

  /** The same configuration with every switch off. */
  function AllOff(cfg: EditConfig): EditConfig
  {
    cfg.(alter := Toggles(false, false, false, false, false, false, false))
  }
}
