/** What the two passes extract from each file before touching anything:
    `get_xml_info` for invoices and `get_evento_info` for cancellation events. */
module FileInfo {
  import opened Wrappers
  import opened Text
  import opened Documents

  /** The dictionary `get_xml_info` returns; absent tags read as "" (`refNFe` stays `None`). */
  datatype NFeInfo = NFeInfo(
    name: string,
    number: string,
    cfop: string,
    natOp: string,
    refNFe: Option<string>,
    xTexto: string,
    key: string,
    emitCnpj: string)

  /** The dictionary `get_evento_info` returns. */
  datatype EventInfo = EventInfo(name: string, cancelledKey: string)

  /** Event type of a cancellation. */
  const CancellationEvent := "110111"

  /** The item has a `prod/CFOP` element. */
  predicate HasCfop(item: Item)
  {
    item.prod.Some? && TextOf(item.prod.value, "CFOP").Some?
  }

  /** The text of the first `det/prod/CFOP` of the invoice: the CFOP of the first item, in
      document order, that has one. */
  function FirstCfop(items: seq<Item>): (r: Option<string>)
    ensures r.Some? ==> exists i | 0 <= i < |items| ::
      && HasCfop(items[i]) && TextOf(items[i].prod.value, "CFOP") == r
      && forall j | 0 <= j < i :: !HasCfop(items[j])
    ensures r.None? ==> forall i | 0 <= i < |items| :: !HasCfop(items[i])
  {
    if items == [] then None
    else if HasCfop(items[0]) then TextOf(items[0].prod.value, "CFOP")
    else
      var rest := items[1..];
      var r := FirstCfop(rest);
      assert r.Some? ==> exists i | 0 <= i < |items| ::
        && HasCfop(items[i]) && TextOf(items[i].prod.value, "CFOP") == r
        && forall j | 0 <= j < i :: !HasCfop(items[j])
      by {
        if r.Some? {
          var k :| 0 <= k < |rest| && HasCfop(rest[k]) && TextOf(rest[k].prod.value, "CFOP") == r
            && forall j | 0 <= j < k :: !HasCfop(rest[j]);
          assert items[k + 1] == rest[k];
          forall j | 0 <= j < k + 1 ensures !HasCfop(items[j]) {
            if j > 0 { assert items[j] == rest[j - 1]; }
          }
        }
      }
      assert r.None? ==> forall i | 0 <= i < |items| :: !HasCfop(items[i]) by {
        if r.None? {
          forall i | 0 <= i < |items| ensures !HasCfop(items[i]) {
            if i > 0 { assert items[i] == rest[i - 1]; }
          }
        }
      }
      r
  }

  function OrEmpty(t: Option<string>): string { t.GetOr("") }

  /** `get_xml_info`: the summary of an invoice file, or `None` for a file that does not parse,
      an event file, or an invoice without `infNFe`, `ide`, `emit` or a key after "NFe". */
  function GetXmlInfo(f: XmlFile): (r: Option<NFeInfo>)
    ensures r.Some? <==>
      && f.doc.Some?
      && !Contains(f.doc.value.rootTag, "procEventoNFe")
      && f.doc.value.infNFe.Some?
      && f.doc.value.infNFe.value.ide.Some?
      && f.doc.value.infNFe.value.emit.Some?
      && |KeyOfId(f.doc.value.infNFe.value.id.GetOr("NFe"))| > 0
    ensures r.Some? ==> r.value.name == f.name && |r.value.key| > 0
    ensures r.Some? ==> r.value.key == KeyOfId(f.doc.value.infNFe.value.id.GetOr("NFe"))
  {
    if f.doc.None? then None
    else
      var doc := f.doc.value;
      if Contains(doc.rootTag, "procEventoNFe") || doc.infNFe.None? then None
      else
        var inv := doc.infNFe.value;
        if inv.ide.None? || inv.emit.None? then None
        else
          var key := KeyOfId(inv.id.GetOr("NFe"));
          if key == [] then None
          else
            var ide := inv.ide.value.fields;
            Some(NFeInfo(
              f.name,
              OrEmpty(TextOf(ide, "nNF")),
              OrEmpty(FirstCfop(inv.items)),
              OrEmpty(TextOf(ide, "natOp")),
              inv.ide.value.refNFe,
              OrEmpty(inv.xTexto),
              key,
              OrEmpty(TextOf(inv.emit.value.fields, "CNPJ"))))
  }

  /** `get_evento_info`: the cancelled key of a cancellation event file (type 110111). */
  function GetEventInfo(f: XmlFile): (r: Option<EventInfo>)
    ensures r.Some? <==>
      && f.doc.Some?
      && Contains(f.doc.value.rootTag, "procEventoNFe")
      && f.doc.value.eventType == Some(CancellationEvent)
      && f.doc.value.eventKey.Some?
    ensures r.Some? ==> r == Some(EventInfo(f.name, f.doc.value.eventKey.value))
  {
    if f.doc.None? then None
    else
      var doc := f.doc.value;
      if !Contains(doc.rootTag, "procEventoNFe") then None
      else if doc.eventType != Some(CancellationEvent) then None
      else if doc.eventKey.None? then None
      else Some(EventInfo(f.name, doc.eventKey.value))
  }

  /** A file is never both an invoice summary and a cancellation event. */
  lemma InfoOrEvent(f: XmlFile)
    ensures !(GetXmlInfo(f).Some? && GetEventInfo(f).Some?)
  {
  }

  /** Python truthiness of the optional `ref_nfe`. */
  predicate HasReference(ref: Option<string>) { ref.Some? && |ref.value| > 0 }

  /** `ref_nfe[25:34].lstrip('0')`: the invoice number field of a referenced key, without leading zeros. */
  function RefNumber(refKey: string): (n: string)
    ensures |n| <= 9 && (n == [] || n[0] != '0')
  {
    LStrip(Slice(refKey, 25, 34), '0')
  }

  /** On a full key, the number read is the tail of the number field, characters 25-33. */
  lemma RefNumberTail(refKey: string)
    requires |refKey| >= 34
    ensures var n := RefNumber(refKey); n == refKey[34 - |n|..34]
  {
    var field := Slice(refKey, 25, 34);
    assert field == refKey[25..34];
    var n := LStrip(field, '0');
    SuffixOfSlice(refKey, 25, 34, n);
  }
}
