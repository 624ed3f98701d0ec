/** The new file name of an invoice in the renaming pass: a decision over its operation
    code, its nature of operation, its referenced key and its free-text remarks. */
module Classification {
  import opened Wrappers
  import opened Text
  import opened Cfop
  import opened FileInfo

  /** The kinds of name `processar_arquivos` gives; `ref` is the referenced invoice number. */
  datatype Category =
    | Undelivered(ref: string)
    | MarketplaceReturn(ref: string)
    | SaleReturn(ref: string)
    | Sale
    | SymbolicReturn(ref: string)
    | EffectiveReturn(ref: string)
    | SymbolicShipment(ref: string)
    | Shipment
    | Unnamed

  const UndeliveredNature := "Retorno de mercadoria nao entregue"
  const DevolutionNature := "Devolucao de mercadorias"
  const SymbolicReturnNature := "Outras Entradas - Retorno Simbolico de Deposito Temporario"
  const EffectiveReturnNature := "Outras Entradas - Retorno de Deposito Temporario"

  /** Remarks marking a return through the marketplace. */
  predicate MarketplaceMarked(xTexto: string)
  {
    |xTexto| > 0 && (Contains(xTexto, "DEVOLUTION_PLACES") || Contains(xTexto, "SALE_DEVOLUTION"))
  }

  /** Remarks marking a plain sale return. */
  predicate SaleReturnMarked(xTexto: string)
  {
    |xTexto| > 0 && Contains(xTexto, "DEVOLUTION_devolution")
  }

  /** The `if`/`elif` chain of the renaming loop; the first matching branch wins. */
  function Classify(cfop: string, natOp: string, refNFe: Option<string>, xTexto: string): Category
  {
    if cfop in Devolutions && HasReference(refNFe) then
      var n := RefNumber(refNFe.value);
      if natOp == UndeliveredNature then Undelivered(n)
      else if natOp == DevolutionNature then
        if MarketplaceMarked(xTexto) then MarketplaceReturn(n)
        else if SaleReturnMarked(xTexto) then SaleReturn(n)
        else Unnamed
      else Unnamed
    else if cfop in Sales then Sale
    else if cfop in Returns && HasReference(refNFe) then
      var n := RefNumber(refNFe.value);
      if natOp == SymbolicReturnNature then SymbolicReturn(n)
      else if natOp == EffectiveReturnNature then EffectiveReturn(n)
      else Unnamed
    else if cfop in Shipments then
      if HasReference(refNFe) then SymbolicShipment(RefNumber(refNFe.value)) else Shipment
    else Unnamed
  }

  /** What the f-strings of the renaming loop write between "{number} - " and ".xml". */
  function Description(c: Category): string
  {
    match c
    case Undelivered(r) => "Insucesso de entrega da venda " + r
    case MarketplaceReturn(r) => "Devoluçao pro Mercado Livre da venda - " + r
    case SaleReturn(r) => "Devolucao da venda " + r
    case Sale => "Venda"
    case SymbolicReturn(r) => "Retorno da remessa " + r
    case EffectiveReturn(r) => "Retorno Efetivo da remessa " + r
    case SymbolicShipment(r) => "Remessa simbólica da venda " + r
    case Shipment => "Remessa"
    case Unnamed => ""
  }

  /** The new name; "" means the file keeps its name. */
  function FileName(number: string, c: Category): string
  {
    if c.Unnamed? then "" else number + " - " + Description(c) + ".xml"
  }

  /** `novo_nome` for one entry of `nfe_infos`. */
  function NewName(info: NFeInfo): string
  {
    FileName(info.number, Classify(info.cfop, info.natOp, info.refNFe, info.xTexto))
  }

  /** Which table each category comes from. Because the four tables are disjoint, a sale or a
      shipment is recognised by its code alone, whatever the nature of operation and remarks;
      the categories that cite another invoice need a non-empty reference and cite its number. */
  lemma ClassifyByTable(cfop: string, natOp: string, refNFe: Option<string>, xTexto: string)
    ensures var c := Classify(cfop, natOp, refNFe, xTexto);
      && (c.Sale? <==> cfop in Sales)
      && (c.Shipment? <==> cfop in Shipments && !HasReference(refNFe))
      && (c.SymbolicShipment? <==> cfop in Shipments && HasReference(refNFe))
      && ((c.Undelivered? || c.MarketplaceReturn? || c.SaleReturn?) ==> cfop in Devolutions)
      && ((c.SymbolicReturn? || c.EffectiveReturn?) ==> cfop in Returns)
      && (c.Unnamed? ==> cfop !in Sales && cfop !in Shipments)
      && (c.Sale? || c.Shipment? || c.Unnamed? || (HasReference(refNFe) && c.ref == RefNumber(refNFe.value)))
    ensures cfop !in Devolutions && cfop !in Sales && cfop !in Returns && cfop !in Shipments ==>
      Classify(cfop, natOp, refNFe, xTexto) == Unnamed
  {
    TablesDisjoint(cfop);
  }

  /** The devolution branch in full: which nature of operation and which remarks give which name. */
  lemma DevolutionNames(cfop: string, natOp: string, ref: string, xTexto: string)
    requires cfop in Devolutions && |ref| > 0
    ensures var c := Classify(cfop, natOp, Some(ref), xTexto);
      && (natOp == UndeliveredNature ==> c == Undelivered(RefNumber(ref)))
      && (natOp == DevolutionNature && MarketplaceMarked(xTexto) ==> c == MarketplaceReturn(RefNumber(ref)))
      && (natOp == DevolutionNature && !MarketplaceMarked(xTexto) && SaleReturnMarked(xTexto) ==>
            c == SaleReturn(RefNumber(ref)))
      && (c.Unnamed? <==>
            natOp != UndeliveredNature &&
            (natOp != DevolutionNature || (!MarketplaceMarked(xTexto) && !SaleReturnMarked(xTexto))))
  {
  }

  /** A devolution or return without a reference is not renamed. */
  lemma UnreferencedDevolutionUnnamed(cfop: string, natOp: string, refNFe: Option<string>, xTexto: string)
    requires cfop in Devolutions || cfop in Returns
    requires !HasReference(refNFe)
    ensures Classify(cfop, natOp, refNFe, xTexto) == Unnamed
  {
    TablesDisjoint(cfop);
  }

  /** Every name starts with the invoice number and " - " and ends with ".xml";
      only `Unnamed` gives the empty name, which means "do not rename". */
  lemma FileNameShape(number: string, c: Category)
    ensures c.Unnamed? <==> FileName(number, c) == ""
    ensures !c.Unnamed? ==>
      var name := FileName(number, c);
      && |name| >= |number| + 7
      && name[..|number| + 3] == number + " - "
      && name[|name| - 4..] == ".xml"
  {
  }
}
