/** The edit of one invoice file (the NFe branch of the per-file loop): issuer fields, the
    items, the recomputed totals, the dates, and the keys. The parsed tree is changed in
    place, so the editor is an object whose fields are the parts of the tree it rewrites. */
module InvoiceEdit {
  import opened Wrappers
  import opened Text
  import opened Cfop
  import opened Config
  import opened Documents
  import opened Changes
  import opened ItemEdit
  import opened Totals
  import opened Dates
  import opened Mappings

  /** What the edit of one invoice works on: the invoice, the protocol group and the change list. */
  datatype NFeState = NFeState(inv: Invoice, protocol: Option<seq<Field>>, log: seq<Change>)

  /** The `ide` tags that take the new timestamp, in order. */
  const DateTags: seq<string> := ["dhEmi", "dhSaiEnt"]

  /** Sets the first `tag` of a group and logs `c`, when the group has that tag. */
  function SetLogged(fields: seq<Field>, tag: string, text: string, log: seq<Change>, c: Change): (r: Edited<seq<Field>>)
    ensures SameTags(r.value, fields) && Extends(r.log, log)
  {
    if Find(fields, tag).Some? then Edited(SetText(fields, tag, text), log + [c]) else Edited(fields, log)
  }

  /** The loop over `['dhEmi', 'dhSaiEnt']`. */
  function SetDates(fields: seq<Field>, tags: seq<string>, text: string, log: seq<Change>): (r: Edited<seq<Field>>)
    ensures SameTags(r.value, fields) && Extends(r.log, log)
    decreases |tags|
  {
    if tags == [] then Edited(fields, log)
    else
      var e := SetLogged(fields, tags[0], text, log, DateField(tags[0]));
      SetDates(e.value, tags[1..], text, e.log)
  }

  // ---------------------------------------------------------------- phases

  /** Lines 321-331: the issuer entries, when switched on and configured and `emit` exists. */
  function IssuerPhase(s: NFeState, cfg: EditConfig): NFeState
  {
    if cfg.alter.issuer && NonEmpty(cfg.issuer) && s.inv.emit.Some? then
      var o := OverwriteIssuer(s.inv.emit.value, cfg.issuer.value, s.log);
      s.(inv := s.inv.(emit := Some(o.value)), log := o.log)
    else s
  }

  /** Lines 333-399: every `det`, in order. */
  function ItemsPhase(s: NFeState, cfg: EditConfig): NFeState
  {
    var e := EditItemsFrom([], s.inv.items, cfg, s.log);
    s.(inv := s.inv.(items := e.value), log := e.log)
  }

  /** Lines 401-443: with zeroing on and `ICMSTot` present, the totals over the edited items;
      `None` when an amount does not parse. */
  function TotalsPhase(s: NFeState, cfg: EditConfig): Option<NFeState>
  {
    if cfg.alter.zeroIpi && s.inv.totals.Some? then
      match RecomputeTotals(s.inv.totals.value, s.inv.items, s.log)
      case None => None
      case Some(t) => Some(s.(inv := s.inv.(totals := Some(t.value)), log := t.log))
    else Some(s)
  }

  /** Lines 445-459: with the date switch on and a date configured, the emission and exit
      timestamps of `ide` and the protocol's receipt timestamp; `None` when the date does not parse. */
  function DatesPhase(s: NFeState, cfg: EditConfig, now: TimeOfDay): Option<NFeState>
  {
    if !cfg.alter.date || cfg.newDate.Unset? then Some(s)
    else if cfg.newDate.Unparsable? then None
    else
      var ts := Timestamp(cfg.newDate.date, now);
      var s1 :=
        if s.inv.ide.Some? then
          var d := SetDates(s.inv.ide.value.fields, DateTags, ts, s.log);
          s.(inv := s.inv.(ide := Some(s.inv.ide.value.(fields := d.value))), log := d.log)
        else s;
      if s1.protocol.Some? then
        var p := SetLogged(s1.protocol.value, "dhRecbto", ts, s1.log, ProtocolReceived);
        Some(s1.(protocol := Some(p.value), log := p.log))
      else Some(s1)
  }

  /** Lines 461-479: the new key in `Id` and in the protocol's `chNFe` when the invoice's key is
      mapped; then, with the reference switch on, the new key of the referenced invoice in `refNFe`. */
  function KeysPhase(s: NFeState, key: string, maps: KeyMaps, cfg: EditConfig): NFeState
  {
    var s1 :=
      if key in maps.keys then
        var nk := maps.keys[key];
        var log := s.log + [KeyId(nk)];
        if s.protocol.Some? then
          var p := SetLogged(s.protocol.value, "chNFe", nk, log, ProtocolKey);
          NFeState(s.inv.(id := Some("NFe" + nk)), Some(p.value), p.log)
        else NFeState(s.inv.(id := Some("NFe" + nk)), s.protocol, log)
      else s;
    if cfg.alter.refNFe && key in maps.refs && maps.refs[key] in maps.keys && s1.inv.ide.Some? && s1.inv.ide.value.refNFe.Some? then
      var nr := maps.keys[maps.refs[key]];
      s1.(inv := s1.inv.(ide := Some(s1.inv.ide.value.(refNFe := Some(nr)))), log := s1.log + [Reference(nr)])
    else s1
  }

  /** The NFe branch for one file: `None` when it raises (no `Id`, an amount or the date that
      does not parse), else the edited invoice and protocol with the change list. */
  function EditNFeSpec(inv: Invoice, protocol: Option<seq<Field>>, maps: KeyMaps, cfg: EditConfig, now: TimeOfDay): Option<NFeState>
  {
    if inv.id.None? then None
    else
      var s2 := ItemsPhase(IssuerPhase(NFeState(inv, protocol, []), cfg), cfg);
      match TotalsPhase(s2, cfg)
      case None => None
      case Some(s3) =>
        match DatesPhase(s3, cfg, now)
        case None => None
        case Some(s4) => Some(KeysPhase(s4, KeyOfId(inv.id.value), maps, cfg))
  }

  // ---------------------------------------------------------------- the loops

  /** The loop over `novo_produto.items()` on one `prod`. */
  method OverwriteProductLoop(prod: seq<Field>, entries: seq<(string, string)>, log: seq<Change>) returns (r: Edited<seq<Field>>)
    ensures r == OverwriteProduct(prod, entries, log)
  {
    var fields, changes := prod, log;
    for k := 0 to |entries|
      invariant OverwriteProduct(fields, entries[k..], changes) == OverwriteProduct(prod, entries, log)
    {
      assert entries[k..][0] == entries[k] && entries[k..][1..] == entries[k + 1..];
      var (tag, text) := entries[k];
      if Find(fields, tag).Some? {
        fields := SetText(fields, tag, text);
        changes := Note(changes, ProductField(tag));
      }
    }
    r := Edited(fields, changes);
  }

  /** The loop over `novos_impostos.items()` on one `imposto`. */
  method OverwriteTaxesLoop(imp: seq<Leaf>, entries: seq<(string, string)>, log: seq<Change>) returns (r: Edited<seq<Leaf>>)
    ensures r == OverwriteTaxes(imp, entries, log)
  {
    var leaves, changes := imp, log;
    for k := 0 to |entries|
      invariant OverwriteTaxes(leaves, entries[k..], changes) == OverwriteTaxes(imp, entries, log)
    {
      assert entries[k..][0] == entries[k] && entries[k..][1..] == entries[k + 1..];
      var (path, text) := entries[k];
      var suffix := Split(path, '/');
      if FindLeaf(leaves, [], suffix).Some? {
        leaves := SetLeafText(leaves, [], suffix, text);
        changes := Note(changes, TaxField(path));
      }
    }
    r := Edited(leaves, changes);
  }

  /** The body of the `for det in ...` loop for one item. */
  method EditDet(item: Item, cfg: EditConfig, log: seq<Change>) returns (r: Edited<Item>)
    ensures r == EditItem(item, cfg, log)
  {
    var prod, changes := item.prod, log;
    if cfg.alter.products && NonEmpty(cfg.product) && prod.Some? {
      var o := OverwriteProductLoop(prod.value, cfg.product.value, changes);
      prod, changes := Some(o.value), o.log;
    }
    if item.imposto.None? {
      return Edited(Item(prod, None), changes);
    }
    var imp := item.imposto.value;
    if cfg.alter.taxes && NonEmpty(cfg.taxes) {
      var t := OverwriteTaxesLoop(imp, cfg.taxes.value, changes);
      imp, changes := t.value, t.log;
    }
    var cfop := ItemCfop(prod);
    if cfg.alter.cst && |cfg.cstMap| > 0 {
      var c := RemapCst(cfop, imp, cfg.cstMap, changes);
      imp, changes := c.value, c.log;
    }
    if cfg.alter.zeroIpi {
      var z := ZeroIpi(cfop, imp, changes);
      imp, changes := z.value, z.log;
    }
    r := Edited(Item(prod, Some(imp)), changes);
  }

  /** The fields of the parsed tree the NFe branch rewrites, with the file's change list. */
  class InvoiceEditor {
    var id: Option<string>
    var ide: Option<Ide>
    var emit: Option<Issuer>
    var items: seq<Item>
    var xTexto: Option<string>
    var totals: Option<seq<Field>>
    var protocol: Option<seq<Field>>
    var changes: seq<Change>

    function State(): NFeState
      reads this
    {
      NFeState(Invoice(id, ide, emit, items, xTexto, totals), protocol, changes)
    }

    constructor(s: NFeState)
      ensures State() == s
    {
      id, ide, emit, items := s.inv.id, s.inv.ide, s.inv.emit, s.inv.items;
      xTexto, totals, protocol, changes := s.inv.xTexto, s.inv.totals, s.protocol, s.log;
    }

    method EditIssuer(cfg: EditConfig)
      modifies this
      ensures State() == IssuerPhase(old(State()), cfg)
    {
      if cfg.alter.issuer && NonEmpty(cfg.issuer) && emit.Some? {
        var entries := cfg.issuer.value;
        var e, log := emit.value, changes;
        for k := 0 to |entries|
          invariant OverwriteIssuer(e, entries[k..], log) == OverwriteIssuer(old(emit).value, entries, old(changes))
        {
          assert entries[k..][0] == entries[k] && entries[k..][1..] == entries[k + 1..];
          var s := IssuerEntry(e, entries[k], log);
          e, log := s.value, s.log;
        }
        emit, changes := Some(e), log;
      }
    }

    method EditItems(cfg: EditConfig)
      modifies this
      ensures State() == ItemsPhase(old(State()), cfg)
    {
      var all, log := items, changes;
      for i := 0 to |all|
        invariant |all| == |old(items)| && all[i..] == old(items)[i..]
        invariant EditItemsFrom(all[..i], all[i..], cfg, log) == EditItemsFrom([], old(items), cfg, old(changes))
        invariant unchanged(this)
      {
        assert all[i..][0] == all[i] && all[i..][1..] == all[i + 1..];
        var h := EditDet(all[i], cfg, log);
        assert all[..i] + [h.value] == all[i := h.value][..i + 1];
        all, log := all[i := h.value], h.log;
      }
      assert all[..|all|] == all && all[|all|..] == [];
      assert EditItemsFrom([], old(items), cfg, old(changes)) == Edited(all, log);
      items, changes := all, log;
    }

    method EditTotals(cfg: EditConfig) returns (ok: bool)
      modifies this
      ensures ok == TotalsPhase(old(State()), cfg).Some?
      ensures ok ==> State() == TotalsPhase(old(State()), cfg).value
    {
      if cfg.alter.zeroIpi && totals.Some? {
        var sums := SumItems(items);
        if sums.None? {
          return false;
        }
        var t := WriteTotals(totals.value, sums.value, changes);
        totals, changes := Some(t.value), t.log;
      }
      ok := true;
    }

    method EditDates(cfg: EditConfig, now: TimeOfDay) returns (ok: bool)
      modifies this
      ensures ok == DatesPhase(old(State()), cfg, now).Some?
      ensures ok ==> State() == DatesPhase(old(State()), cfg, now).value
    {
      if !cfg.alter.date || cfg.newDate.Unset? {
        return true;
      }
      if cfg.newDate.Unparsable? {
        return false;
      }
      var ts := Timestamp(cfg.newDate.date, now);
      if ide.Some? {
        var fields, log := ide.value.fields, changes;
        for k := 0 to |DateTags|
          invariant SetDates(fields, DateTags[k..], ts, log) == SetDates(old(ide).value.fields, DateTags, ts, old(changes))
        {
          assert DateTags[k..][0] == DateTags[k] && DateTags[k..][1..] == DateTags[k + 1..];
          var e := SetLogged(fields, DateTags[k], ts, log, DateField(DateTags[k]));
          fields, log := e.value, e.log;
        }
        ide, changes := Some(ide.value.(fields := fields)), log;
      }
      if protocol.Some? {
        var p := SetLogged(protocol.value, "dhRecbto", ts, changes, ProtocolReceived);
        protocol, changes := Some(p.value), p.log;
      }
      ok := true;
    }

    method EditKeys(key: string, maps: KeyMaps, cfg: EditConfig)
      modifies this
      ensures State() == KeysPhase(old(State()), key, maps, cfg)
    {
      if key in maps.keys {
        var nk := maps.keys[key];
        id := Some("NFe" + nk);
        changes := changes + [KeyId(nk)];
        if protocol.Some? {
          var p := SetLogged(protocol.value, "chNFe", nk, changes, ProtocolKey);
          protocol, changes := Some(p.value), p.log;
        }
      }
      if cfg.alter.refNFe && key in maps.refs && maps.refs[key] in maps.keys && ide.Some? && ide.value.refNFe.Some? {
        var nr := maps.keys[maps.refs[key]];
        ide := Some(ide.value.(refNFe := Some(nr)));
        changes := changes + [Reference(nr)];
      }
    }
  }

  /** The NFe branch for one file, phase by phase on an editor over the parsed invoice. */
  method EditNFe(inv: Invoice, protocol: Option<seq<Field>>, maps: KeyMaps, cfg: EditConfig, now: TimeOfDay) returns (r: Option<NFeState>)
    ensures r == EditNFeSpec(inv, protocol, maps, cfg, now)
  {
    if inv.id.None? {
      return None;
    }
    var key := KeyOfId(inv.id.value);
    var editor := new InvoiceEditor(NFeState(inv, protocol, []));
    editor.EditIssuer(cfg);
    editor.EditItems(cfg);
    var ok := editor.EditTotals(cfg);
    if !ok {
      return None;
    }
    ok := editor.EditDates(cfg, now);
    if !ok {
      return None;
    }
    editor.EditKeys(key, maps, cfg);
    r := Some(editor.State());
  }

  // ---------------------------------------------------------------- what the branch promises

  /** The items as edited one by one, each on its own. */
  function EditedList(items: seq<Item>, cfg: EditConfig): (r: seq<Item>)
    ensures |r| == |items|
  {
    seq(|items|, i requires 0 <= i < |items| => EditItem(items[i], cfg, []).value)
  }

  /** The state after the issuer and item phases: the items are edited one by one and nothing
      else the later phases read has changed. */
  lemma FrontPhases(inv: Invoice, protocol: Option<seq<Field>>, cfg: EditConfig)
    ensures var s2 := ItemsPhase(IssuerPhase(NFeState(inv, protocol, []), cfg), cfg);
      && s2.inv.items == EditedList(inv.items, cfg)
      && s2.inv.id == inv.id && s2.inv.ide == inv.ide && s2.inv.totals == inv.totals
      && s2.protocol == protocol
  {
    var s1 := IssuerPhase(NFeState(inv, protocol, []), cfg);
    EditedItems([], inv.items, cfg, s1.log);
  }

  /** The file fails exactly when it has no `Id`, when the totals are recomputed and an edited
      item holds an amount that does not parse, or when the date switch is on and the
      configured date does not parse. */
  lemma NFeFailsExactly(inv: Invoice, protocol: Option<seq<Field>>, maps: KeyMaps, cfg: EditConfig, now: TimeOfDay)
    ensures EditNFeSpec(inv, protocol, maps, cfg, now).None? <==>
      || inv.id.None?
      || (cfg.alter.zeroIpi && inv.totals.Some? &&
          exists i | 0 <= i < |inv.items| :: ItemSums(EditItem(inv.items[i], cfg, []).value).None?)
      || (cfg.alter.date && cfg.newDate.Unparsable?)
  {
    if inv.id.Some? {
      FrontPhases(inv, protocol, cfg);
      var s2 := ItemsPhase(IssuerPhase(NFeState(inv, protocol, []), cfg), cfg);
      TotalsPhaseFails(s2, cfg);
      EditedItemsFail(inv.items, cfg);
      if TotalsPhase(s2, cfg).Some? {
        DatesPhaseFails(TotalsPhase(s2, cfg).value, cfg, now);
      }
    }
  }

  /** The totals phase fails exactly when it runs and some amount does not parse. */
  lemma TotalsPhaseFails(s: NFeState, cfg: EditConfig)
    ensures TotalsPhase(s, cfg).None? <==> cfg.alter.zeroIpi && s.inv.totals.Some? && Total(s.inv.items).None?
  {
  }

  /** The date phase fails exactly when it runs and the date does not parse. */
  lemma DatesPhaseFails(s: NFeState, cfg: EditConfig, now: TimeOfDay)
    ensures DatesPhase(s, cfg, now).None? <==> cfg.alter.date && cfg.newDate.Unparsable?
  {
  }

  /** The edited items fail to sum exactly when one of them, edited on its own, holds an
      amount that does not parse. */
  lemma EditedItemsFail(items: seq<Item>, cfg: EditConfig)
    ensures Total(EditedList(items, cfg)).None? <==>
      exists i | 0 <= i < |items| :: ItemSums(EditItem(items[i], cfg, []).value).None?
  {
    var edited := EditedList(items, cfg);
    TotalFailsExactly(edited);
    if exists i | 0 <= i < |edited| :: ItemSums(edited[i]).None? {
      var i :| 0 <= i < |edited| && ItemSums(edited[i]).None?;
      assert edited[i] == EditItem(items[i], cfg, []).value;
    }
    if exists i | 0 <= i < |items| :: ItemSums(EditItem(items[i], cfg, []).value).None? {
      var i :| 0 <= i < |items| && ItemSums(EditItem(items[i], cfg, []).value).None?;
      assert edited[i] == EditItem(items[i], cfg, []).value;
    }
  }

  /** Keys: a mapped invoice carries its new key in `Id` and in the protocol's `chNFe`, an
      unmapped one keeps its `Id`; `refNFe` takes the new key of the referenced invoice exactly
      when the reference switch is on and both the invoice and its reference are mapped. */
  lemma KeysRewritten(inv: Invoice, protocol: Option<seq<Field>>, maps: KeyMaps, cfg: EditConfig, now: TimeOfDay)
    requires EditNFeSpec(inv, protocol, maps, cfg, now).Some?
    ensures var s := EditNFeSpec(inv, protocol, maps, cfg, now).value; var key := KeyOfId(inv.id.value);
      && (key in maps.keys ==> s.inv.id == Some("NFe" + maps.keys[key]))
      && (key !in maps.keys ==> s.inv.id == inv.id)
      && (key in maps.keys && protocol.Some? && Find(protocol.value, "chNFe").Some? ==>
            s.protocol.Some? && TextOf(s.protocol.value, "chNFe") == Some(maps.keys[key]))
      && s.inv.ide.Some? == inv.ide.Some?
      && (inv.ide.Some? ==>
            s.inv.ide.value.refNFe ==
              (if cfg.alter.refNFe && key in maps.refs && maps.refs[key] in maps.keys && inv.ide.value.refNFe.Some?
               then Some(maps.keys[maps.refs[key]])
               else inv.ide.value.refNFe))
  {
    ThroughKeys(inv, protocol, maps, cfg, now);
    BeforeKeysKeeps(inv, protocol, cfg, now);
    KeysPhaseWrites(BeforeKeys(inv, protocol, cfg, now).value, KeyOfId(inv.id.value), maps, cfg);
  }

  /** The key phase on its own: the new key in `Id` and in `chNFe` for a mapped key, and the
      referenced invoice's new key in `refNFe` when switched on and both are mapped. */
  lemma KeysPhaseWrites(s: NFeState, key: string, maps: KeyMaps, cfg: EditConfig)
    ensures var r := KeysPhase(s, key, maps, cfg);
      && (key in maps.keys ==> r.inv.id == Some("NFe" + maps.keys[key]))
      && (key !in maps.keys ==> r.inv.id == s.inv.id)
      && (key in maps.keys && s.protocol.Some? && Find(s.protocol.value, "chNFe").Some? ==>
            r.protocol.Some? && TextOf(r.protocol.value, "chNFe") == Some(maps.keys[key]))
      && r.inv.ide.Some? == s.inv.ide.Some?
      && (s.inv.ide.Some? ==>
            r.inv.ide.value.refNFe ==
              (if cfg.alter.refNFe && key in maps.refs && maps.refs[key] in maps.keys && s.inv.ide.value.refNFe.Some?
               then Some(maps.keys[maps.refs[key]])
               else s.inv.ide.value.refNFe))
  {
  }

  /** Before the key phase the invoice still has its `Id`, its `ide` group and reference, and
      its protocol with the same tags. */
  lemma BeforeKeysKeeps(inv: Invoice, protocol: Option<seq<Field>>, cfg: EditConfig, now: TimeOfDay)
    requires BeforeKeys(inv, protocol, cfg, now).Some?
    ensures var s4 := BeforeKeys(inv, protocol, cfg, now).value;
      && s4.inv.id == inv.id && s4.inv.ide.Some? == inv.ide.Some?
      && (inv.ide.Some? ==> s4.inv.ide.value.refNFe == inv.ide.value.refNFe)
      && s4.protocol.Some? == protocol.Some?
      && (protocol.Some? ==> Find(s4.protocol.value, "chNFe") == Find(protocol.value, "chNFe"))
  {
    FrontPhases(inv, protocol, cfg);
    var s2 := ItemsPhase(IssuerPhase(NFeState(inv, protocol, []), cfg), cfg);
    TotalsPhaseKeeps(s2, cfg);
    var s3 := TotalsPhase(s2, cfg).value;
    DatesPhaseKeeps(s3, cfg, now);
    if protocol.Some? {
      SameTagsSameFind(DatesPhase(s3, cfg, now).value.protocol.value, protocol.value, "chNFe");
    }
  }

  lemma DatesSet(fields: seq<Field>, text: string, log: seq<Change>)
    ensures var r := SetDates(fields, DateTags, text, log).value;
      forall t | t in DateTags && Find(fields, t).Some? :: TextOf(r, t) == Some(text)
  {
    var e := SetLogged(fields, "dhEmi", text, log, DateField("dhEmi"));
    assert DateTags[1..] == ["dhSaiEnt"] && ["dhSaiEnt"][1..] == [];
    SameTagsSameFind(e.value, fields, "dhSaiEnt");
  }

  /** The date phase, on its own: with a parsed date, the date tags of `ide` and the protocol's
      `dhRecbto`, where present, hold the new timestamp; the groups themselves stay. */
  lemma DatesPhaseWrites(s: NFeState, cfg: EditConfig, now: TimeOfDay)
    requires cfg.alter.date && cfg.newDate.Parsed?
    ensures DatesPhase(s, cfg, now).Some?
    ensures var r := DatesPhase(s, cfg, now).value; var ts := Timestamp(cfg.newDate.date, now);
      && r.inv.ide.Some? == s.inv.ide.Some? && r.protocol.Some? == s.protocol.Some?
      && r.inv.totals == s.inv.totals && r.inv.id == s.inv.id
      && (s.inv.ide.Some? ==> forall t | t in DateTags && Find(s.inv.ide.value.fields, t).Some? :: TextOf(r.inv.ide.value.fields, t) == Some(ts))
      && (s.protocol.Some? && Find(s.protocol.value, "dhRecbto").Some? ==> TextOf(r.protocol.value, "dhRecbto") == Some(ts))
  {
    var ts := Timestamp(cfg.newDate.date, now);
    if s.inv.ide.Some? {
      DatesSet(s.inv.ide.value.fields, ts, s.log);
    }
  }

  /** The key phase leaves the totals and the fields of `ide` alone, and of the protocol it
      writes `chNFe` only. */
  lemma KeysPhaseKeeps(s: NFeState, key: string, maps: KeyMaps, cfg: EditConfig)
    ensures var r := KeysPhase(s, key, maps, cfg);
      && r.inv.totals == s.inv.totals
      && r.inv.ide.Some? == s.inv.ide.Some?
      && (s.inv.ide.Some? ==> r.inv.ide.value.fields == s.inv.ide.value.fields)
      && r.protocol.Some? == s.protocol.Some?
      && (s.protocol.Some? ==> forall t | t != "chNFe" :: TextOf(r.protocol.value, t) == TextOf(s.protocol.value, t))
  {
  }

  /** The totals phase changes the totals and the change list only. */
  lemma TotalsPhaseKeeps(s: NFeState, cfg: EditConfig)
    requires TotalsPhase(s, cfg).Some?
    ensures var r := TotalsPhase(s, cfg).value;
      r.inv.id == s.inv.id && r.inv.ide == s.inv.ide && r.inv.items == s.inv.items && r.protocol == s.protocol
  {
  }

  /** The invoice through the totals and date phases, on the way to the key phase. */
  function BeforeKeys(inv: Invoice, protocol: Option<seq<Field>>, cfg: EditConfig, now: TimeOfDay): Option<NFeState>
  {
    var s2 := ItemsPhase(IssuerPhase(NFeState(inv, protocol, []), cfg), cfg);
    match TotalsPhase(s2, cfg)
    case None => None
    case Some(s3) => DatesPhase(s3, cfg, now)
  }

  lemma ThroughKeys(inv: Invoice, protocol: Option<seq<Field>>, maps: KeyMaps, cfg: EditConfig, now: TimeOfDay)
    requires EditNFeSpec(inv, protocol, maps, cfg, now).Some?
    ensures BeforeKeys(inv, protocol, cfg, now).Some?
    ensures EditNFeSpec(inv, protocol, maps, cfg, now) == Some(KeysPhase(BeforeKeys(inv, protocol, cfg, now).value, KeyOfId(inv.id.value), maps, cfg))
  {
  }

  /** With a parsed date, the state before the key phase carries the new timestamp in the date
      tags of `ide` and in the protocol's `dhRecbto`, where present. */
  lemma DatesBeforeKeys(inv: Invoice, protocol: Option<seq<Field>>, cfg: EditConfig, now: TimeOfDay)
    requires cfg.alter.date && cfg.newDate.Parsed?
    requires BeforeKeys(inv, protocol, cfg, now).Some?
    ensures var s4 := BeforeKeys(inv, protocol, cfg, now).value; var ts := Timestamp(cfg.newDate.date, now);
      && s4.inv.ide.Some? == inv.ide.Some? && s4.protocol.Some? == protocol.Some?
      && (inv.ide.Some? ==> forall t | t in DateTags && Find(inv.ide.value.fields, t).Some? :: TextOf(s4.inv.ide.value.fields, t) == Some(ts))
      && (protocol.Some? && Find(protocol.value, "dhRecbto").Some? ==> TextOf(s4.protocol.value, "dhRecbto") == Some(ts))
  {
    FrontPhases(inv, protocol, cfg);
    var s2 := ItemsPhase(IssuerPhase(NFeState(inv, protocol, []), cfg), cfg);
    TotalsPhaseKeeps(s2, cfg);
    DatesPhaseWrites(TotalsPhase(s2, cfg).value, cfg, now);
  }

  /** Dates: with the date switch on and a parsed date, `dhEmi` and `dhSaiEnt`, where present,
      hold the new timestamp once the file is edited. */
  lemma DatesRewritten(inv: Invoice, protocol: Option<seq<Field>>, maps: KeyMaps, cfg: EditConfig, now: TimeOfDay)
    requires cfg.alter.date && cfg.newDate.Parsed?
    requires EditNFeSpec(inv, protocol, maps, cfg, now).Some?
    ensures var s := EditNFeSpec(inv, protocol, maps, cfg, now).value; var ts := Timestamp(cfg.newDate.date, now);
      inv.ide.Some? ==> s.inv.ide.Some? && forall t | t in DateTags && Find(inv.ide.value.fields, t).Some? :: TextOf(s.inv.ide.value.fields, t) == Some(ts)
  {
    ThroughKeys(inv, protocol, maps, cfg, now);
    var s4 := BeforeKeys(inv, protocol, cfg, now).value;
    DatesBeforeKeys(inv, protocol, cfg, now);
    KeysPhaseKeeps(s4, KeyOfId(inv.id.value), maps, cfg);
  }

  /** Receipt: with the date switch on and a parsed date, the protocol's `dhRecbto`, where
      present, holds the new timestamp once the file is edited. */
  lemma ReceiptRewritten(inv: Invoice, protocol: Option<seq<Field>>, maps: KeyMaps, cfg: EditConfig, now: TimeOfDay)
    requires cfg.alter.date && cfg.newDate.Parsed?
    requires EditNFeSpec(inv, protocol, maps, cfg, now).Some?
    ensures var s := EditNFeSpec(inv, protocol, maps, cfg, now).value;
      protocol.Some? && Find(protocol.value, "dhRecbto").Some? ==>
        s.protocol.Some? && TextOf(s.protocol.value, "dhRecbto") == Some(Timestamp(cfg.newDate.date, now))
  {
    ThroughKeys(inv, protocol, maps, cfg, now);
    var s4 := BeforeKeys(inv, protocol, cfg, now).value;
    DatesBeforeKeys(inv, protocol, cfg, now);
    KeysPhaseKeeps(s4, KeyOfId(inv.id.value), maps, cfg);
  }

  /** An item whose edited IPI value counts zero: it has no `imposto`, no IPI value, or its
      CFOP (after the product entries) is a shipment or return code. */
  predicate NoIpiLeft(item: Item, cfg: EditConfig)
  {
    || item.imposto.None?
    || LeafText(item.imposto.value, ["IPI"], ["vIPI"]).None?
    || (var c := ItemCfop(EditedProduct(item, cfg)); c.Some? && ShipmentOrReturn(c.value))
  }

  lemma NoIpiLeftCountsZero(item: Item, cfg: EditConfig)
    requires cfg.alter.zeroIpi && NoIpiLeft(item, cfg)
    ensures IpiAmount(EditItem(item, cfg, []).value.imposto) == Some(0.0)
  {
    var r := EditItem(item, cfg, []).value;
    if item.imposto.Some? {
      SamePathsSameFindLeaf(r.imposto.value, item.imposto.value, ["IPI"], ["vIPI"]);
      if LeafText(item.imposto.value, ["IPI"], ["vIPI"]).Some? {
        ShipmentItemIpiZero(item, cfg, []);
        ZeroedTextCountsZero();
      }
    }
  }

  /** The totals phase writes "0.00" into `vIPI` when the IPI sum is zero. */
  lemma TotalsPhaseZeroIpi(s: NFeState, cfg: EditConfig)
    requires cfg.alter.zeroIpi && s.inv.totals.Some? && Find(s.inv.totals.value, "vIPI").Some?
    requires Total(s.inv.items).Some? && Total(s.inv.items).value.vIpi == 0.0
    ensures TotalsPhase(s, cfg).Some? && TextOf(TotalsPhase(s, cfg).value.inv.totals.value, "vIPI") == Some("0.00")
  {
    TotalsReadBack(s.inv.totals.value, Total(s.inv.items).value, s.log);
    ZeroWrittenAsZero();
  }

  /** The date phase leaves the `Id` and the totals alone. */
  lemma DatesPhaseKeeps(s: NFeState, cfg: EditConfig, now: TimeOfDay)
    requires DatesPhase(s, cfg, now).Some?
    ensures var r := DatesPhase(s, cfg, now).value;
      && r.inv.id == s.inv.id && r.inv.totals == s.inv.totals
      && r.inv.ide.Some? == s.inv.ide.Some?
      && (s.inv.ide.Some? ==> r.inv.ide.value.refNFe == s.inv.ide.value.refNFe)
      && r.protocol.Some? == s.protocol.Some?
      && (s.protocol.Some? ==> SameTags(r.protocol.value, s.protocol.value))
  {
  }

  /** With zeroing on and no IPI left on any item, the state before the key phase has "0.00"
      in `vIPI`. */
  lemma ZeroIpiBeforeKeys(inv: Invoice, protocol: Option<seq<Field>>, cfg: EditConfig, now: TimeOfDay)
    requires cfg.alter.zeroIpi
    requires inv.totals.Some? && Find(inv.totals.value, "vIPI").Some?
    requires forall i | 0 <= i < |inv.items| :: NoIpiLeft(inv.items[i], cfg)
    requires BeforeKeys(inv, protocol, cfg, now).Some?
    ensures var s4 := BeforeKeys(inv, protocol, cfg, now).value;
      s4.inv.totals.Some? && TextOf(s4.inv.totals.value, "vIPI") == Some("0.00")
  {
    FrontPhases(inv, protocol, cfg);
    var items := EditedList(inv.items, cfg);
    forall i | 0 <= i < |items| ensures IpiAmount(items[i].imposto) == Some(0.0) {
      NoIpiLeftCountsZero(inv.items[i], cfg);
    }
    var s2 := ItemsPhase(IssuerPhase(NFeState(inv, protocol, []), cfg), cfg);
    assert TotalsPhase(s2, cfg).Some?;
    ZeroIpiTotal(items);
    TotalsPhaseZeroIpi(s2, cfg);
    DatesPhaseKeeps(TotalsPhase(s2, cfg).value, cfg, now);
  }

  /** With zeroing on, an invoice whose items all end without IPI gets a recomputed IPI total
      of "0.00" wherever `ICMSTot` has `vIPI`. */
  lemma ZeroedInvoiceIpiTotal(inv: Invoice, protocol: Option<seq<Field>>, maps: KeyMaps, cfg: EditConfig, now: TimeOfDay)
    requires cfg.alter.zeroIpi
    requires inv.totals.Some? && Find(inv.totals.value, "vIPI").Some?
    requires forall i | 0 <= i < |inv.items| :: NoIpiLeft(inv.items[i], cfg)
    requires EditNFeSpec(inv, protocol, maps, cfg, now).Some?
    ensures var s := EditNFeSpec(inv, protocol, maps, cfg, now).value;
      s.inv.totals.Some? && TextOf(s.inv.totals.value, "vIPI") == Some("0.00")
  {
    ThroughKeys(inv, protocol, maps, cfg, now);
    var s4 := BeforeKeys(inv, protocol, cfg, now).value;
    ZeroIpiBeforeKeys(inv, protocol, cfg, now);
    KeysPhaseKeeps(s4, KeyOfId(inv.id.value), maps, cfg);
  }

  lemma UntouchedItems(done: seq<Item>, items: seq<Item>, cfg: EditConfig, log: seq<Change>)
    requires cfg.alter == Toggles(false, false, false, false, false, false, false)
    ensures EditItemsFrom(done, items, cfg, log) == Edited(done + items, log)
    decreases |items|
  {
    if items == [] {
      assert done + items == done;
    } else {
      var item := items[0];
      assert ProductStage(item, cfg, log) == Edited(item.prod, log);
      if item.imposto.Some? {
        assert TaxStage(item.imposto.value, ItemCfop(item.prod), cfg, log) == Edited(item.imposto.value, log);
      }
      assert EditItem(item, cfg, log) == Edited(item, log);
      assert EditItemsFrom(done, items, cfg, log) == EditItemsFrom(done + [item], items[1..], cfg, log);
      UntouchedItems(done + [items[0]], items[1..], cfg, log);
      assert done + [items[0]] + items[1..] == done + items;
    }
  }

  /** With every switch off and the key unmapped, the branch changes nothing and reports nothing. */
  lemma AllOffChangesNothing(inv: Invoice, protocol: Option<seq<Field>>, maps: KeyMaps, cfg: EditConfig, now: TimeOfDay)
    requires cfg.alter == Toggles(false, false, false, false, false, false, false)
    requires inv.id.Some? && KeyOfId(inv.id.value) !in maps.keys
    ensures EditNFeSpec(inv, protocol, maps, cfg, now) == Some(NFeState(inv, protocol, []))
  {
    UntouchedItems([], inv.items, cfg, []);
    assert [] + inv.items == inv.items;
  }
}
