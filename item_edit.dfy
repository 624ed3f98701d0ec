/** What the edit pass does to the issuer group and to each `det` item of an invoice:
    overwriting configured fields, remapping CST codes by operation code, and zeroing the
    item IPI of shipments and returns. Each step carries the change list along. */
module ItemEdit {
  import opened Wrappers
  import opened Text
  import opened Cfop
  import opened Config
  import opened Documents
  import opened Changes

  /** Issuer entries written into `enderEmit` rather than `emit`. */
  const AddressTags: seq<string> := ["xLgr", "nro", "xCpl", "xBairro", "xMun", "UF", "fone"]

  /** The tax groups whose CST a remapping rule may name. */
  const CstGroups: seq<string> := ["ICMS", "IPI", "PIS", "COFINS"]

  /** Some entry of the configuration dictionary has key `t`. */
  predicate Configured(entries: seq<(string, string)>, t: string)
  {
    exists k | 0 <= k < |entries| :: entries[k].0 == t
  }

  predicate SameTags(a: seq<Field>, b: seq<Field>)
  {
    |a| == |b| && forall j | 0 <= j < |a| :: a[j].tag == b[j].tag
  }

  predicate SamePaths(a: seq<Leaf>, b: seq<Leaf>)
  {
    |a| == |b| && forall j | 0 <= j < |a| :: a[j].path == b[j].path
  }

  predicate SameIssuerShape(a: Issuer, b: Issuer)
  {
    && SameTags(a.fields, b.fields)
    && a.address.Some? == b.address.Some?
    && (a.address.Some? ==> SameTags(a.address.value, b.address.value))
  }

  /** The change `c` is listed at most once. */
  predicate Once(log: seq<Change>, c: Change) { multiset(log)[c] <= 1 }

  // ---------------------------------------------------------------- issuer

  /** One entry of `novo_emitente`: address tags go to `enderEmit`, the others to `emit`;
      a group or a tag that is missing is skipped. */
  function IssuerEntry(e: Issuer, entry: (string, string), log: seq<Change>): (r: Edited<Issuer>)
    ensures SameIssuerShape(r.value, e) && Extends(r.log, log)
  {
    var (tag, text) := entry;
    if tag in AddressTags then
      if e.address.Some? && Find(e.address.value, tag).Some? then
        Edited(e.(address := Some(SetText(e.address.value, tag, text))), log + [IssuerField(tag)])
      else Edited(e, log)
    else if Find(e.fields, tag).Some? then
      Edited(e.(fields := SetText(e.fields, tag, text)), log + [IssuerField(tag)])
    else Edited(e, log)
  }

  /** The loop over `novo_emitente.items()`, in order. */
  function OverwriteIssuer(e: Issuer, entries: seq<(string, string)>, log: seq<Change>): (r: Edited<Issuer>)
    ensures SameIssuerShape(r.value, e) && Extends(r.log, log)
    decreases |entries|
  {
    if entries == [] then Edited(e, log)
    else
      var s := IssuerEntry(e, entries[0], log);
      OverwriteIssuer(s.value, entries[1..], s.log)
  }

  lemma SameIssuerShapeFinds(a: Issuer, b: Issuer, t: string)
    requires SameIssuerShape(a, b)
    ensures Find(a.fields, t) == Find(b.fields, t)
    ensures a.address.Some? ==> Find(a.address.value, t) == Find(b.address.value, t)
  {
    SameTagsSameFind(a.fields, b.fields, t);
    if a.address.Some? {
      SameTagsSameFind(a.address.value, b.address.value, t);
    }
  }

  lemma DistinctTail(entries: seq<(string, string)>)
    requires |entries| > 0 && DistinctKeys(entries)
    ensures DistinctKeys(entries[1..])
    ensures forall k | 0 <= k < |entries[1..]| :: entries[1..][k].0 != entries[0].0
  {
  }

  lemma ConfiguredTail(entries: seq<(string, string)>, t: string)
    requires |entries| > 0
    ensures Configured(entries, t) == (entries[0].0 == t || Configured(entries[1..], t))
  {
    if Configured(entries[1..], t) {
      var k :| 0 <= k < |entries[1..]| && entries[1..][k].0 == t;
      assert entries[k + 1].0 == t;
    }
    if Configured(entries, t) && entries[0].0 != t {
      var k :| 0 <= k < |entries| && entries[k].0 == t;
      assert entries[1..][k - 1].0 == t;
    }
  }

  /** Every configured issuer tag present in its group ends up holding the configured value;
      `emit` tags that are not configured (or are address tags) keep their text, and so do
      `enderEmit` tags that are not configured address tags. */
  lemma {:induction false} IssuerOverwritten(e: Issuer, entries: seq<(string, string)>, log: seq<Change>)
    requires DistinctKeys(entries)
    ensures var r := OverwriteIssuer(e, entries, log).value;
      forall k | 0 <= k < |entries| ::
        if entries[k].0 in AddressTags then
          e.address.Some? && Find(e.address.value, entries[k].0).Some? ==>
            TextOf(r.address.value, entries[k].0) == Some(entries[k].1)
        else
          Find(e.fields, entries[k].0).Some? ==> TextOf(r.fields, entries[k].0) == Some(entries[k].1)
    ensures var r := OverwriteIssuer(e, entries, log).value;
      forall t | t in AddressTags || !Configured(entries, t) :: TextOf(r.fields, t) == TextOf(e.fields, t)
    ensures var r := OverwriteIssuer(e, entries, log).value;
      e.address.Some? ==>
        forall t | t !in AddressTags || !Configured(entries, t) ::
          TextOf(r.address.value, t) == TextOf(e.address.value, t)
    decreases |entries|
  {
    if entries != [] {
      var s := IssuerEntry(e, entries[0], log);
      var r := OverwriteIssuer(e, entries, log).value;
      assert r == OverwriteIssuer(s.value, entries[1..], s.log).value;
      DistinctTail(entries);
      IssuerOverwritten(s.value, entries[1..], s.log);
      forall k | 0 <= k < |entries|
        ensures if entries[k].0 in AddressTags then
            e.address.Some? && Find(e.address.value, entries[k].0).Some? ==>
              TextOf(r.address.value, entries[k].0) == Some(entries[k].1)
          else
            Find(e.fields, entries[k].0).Some? ==> TextOf(r.fields, entries[k].0) == Some(entries[k].1)
      {
        SameIssuerShapeFinds(s.value, e, entries[k].0);
        if k == 0 {
          assert !Configured(entries[1..], entries[0].0);
        } else {
          assert entries[k] == entries[1..][k - 1];
        }
      }
      forall t | t in AddressTags || !Configured(entries, t)
        ensures TextOf(r.fields, t) == TextOf(e.fields, t)
      {
        if !Configured(entries, t) {
          ConfiguredTail(entries, t);
        }
      }
      if e.address.Some? {
        forall t | t !in AddressTags || !Configured(entries, t)
          ensures TextOf(r.address.value, t) == TextOf(e.address.value, t)
        {
          if !Configured(entries, t) {
            ConfiguredTail(entries, t);
          }
        }
      }
    }
  }

  // ---------------------------------------------------------------- product

  /** One entry of `novo_produto` on one `prod`; the message is listed once per file. */
  function ProductEntry(prod: seq<Field>, entry: (string, string), log: seq<Change>): Edited<seq<Field>>
  {
    if Find(prod, entry.0).Some? then Edited(SetText(prod, entry.0, entry.1), Note(log, ProductField(entry.0)))
    else Edited(prod, log)
  }

  /** The loop over `novo_produto.items()` for one item. Only product messages are added,
      and none of them twice. */
  function OverwriteProduct(prod: seq<Field>, entries: seq<(string, string)>, log: seq<Change>): (r: Edited<seq<Field>>)
    ensures SameTags(r.value, prod) && Extends(r.log, log)
    ensures forall c: Change | c.ProductField? && Once(log, c) :: Once(r.log, c)
    ensures forall c: Change | !c.ProductField? :: multiset(r.log)[c] == multiset(log)[c]
    decreases |entries|
  {
    if entries == [] then Edited(prod, log)
    else
      var s := ProductEntry(prod, entries[0], log);
      OverwriteProduct(s.value, entries[1..], s.log)
  }

  /** Every configured product tag present in `prod` ends up holding the configured value;
      the tags that are not configured keep their text. */
  lemma {:induction false} ProductOverwritten(prod: seq<Field>, entries: seq<(string, string)>, log: seq<Change>)
    requires DistinctKeys(entries)
    ensures var r := OverwriteProduct(prod, entries, log).value;
      forall k | 0 <= k < |entries| :: Find(prod, entries[k].0).Some? ==> TextOf(r, entries[k].0) == Some(entries[k].1)
    ensures var r := OverwriteProduct(prod, entries, log).value;
      forall t | !Configured(entries, t) :: TextOf(r, t) == TextOf(prod, t)
    decreases |entries|
  {
    if entries != [] {
      var s := ProductEntry(prod, entries[0], log);
      var r := OverwriteProduct(prod, entries, log).value;
      assert r == OverwriteProduct(s.value, entries[1..], s.log).value;
      DistinctTail(entries);
      ProductOverwritten(s.value, entries[1..], s.log);
      forall k | 0 <= k < |entries|
        ensures Find(prod, entries[k].0).Some? ==> TextOf(r, entries[k].0) == Some(entries[k].1)
      {
        SameTagsSameFind(s.value, prod, entries[k].0);
        if k == 0 {
          assert !Configured(entries[1..], entries[0].0);
        } else {
          assert entries[k] == entries[1..][k - 1];
        }
      }
      forall t | !Configured(entries, t)
        ensures TextOf(r, t) == TextOf(prod, t)
      {
        ConfiguredTail(entries, t);
      }
    }
  }

  /** The product loop writes the same fields whatever the change list holds. */
  lemma {:induction false} OverwriteProductValue(prod: seq<Field>, entries: seq<(string, string)>, log: seq<Change>, log': seq<Change>)
    ensures OverwriteProduct(prod, entries, log).value == OverwriteProduct(prod, entries, log').value
    decreases |entries|
  {
    if entries != [] {
      OverwriteProductValue(ProductEntry(prod, entries[0], log).value, entries[1..],
        ProductEntry(prod, entries[0], log).log, ProductEntry(prod, entries[0], log').log);
    }
  }

  // ---------------------------------------------------------------- taxes

  /** One entry of `novos_impostos`: its key is a path searched at any depth below `imposto`. */
  function TaxEntry(imp: seq<Leaf>, entry: (string, string), log: seq<Change>): Edited<seq<Leaf>>
  {
    var suffix := Split(entry.0, '/');
    if FindLeaf(imp, [], suffix).Some? then Edited(SetLeafText(imp, [], suffix, entry.1), Note(log, TaxField(entry.0)))
    else Edited(imp, log)
  }

  /** The loop over `novos_impostos.items()` for one item. Only tax messages are added,
      and none of them twice. */
  function OverwriteTaxes(imp: seq<Leaf>, entries: seq<(string, string)>, log: seq<Change>): (r: Edited<seq<Leaf>>)
    ensures SamePaths(r.value, imp) && Extends(r.log, log)
    ensures forall c: Change | c.TaxField? && Once(log, c) :: Once(r.log, c)
    ensures forall c: Change | !c.TaxField? :: multiset(r.log)[c] == multiset(log)[c]
    decreases |entries|
  {
    if entries == [] then Edited(imp, log)
    else
      var s := TaxEntry(imp, entries[0], log);
      OverwriteTaxes(s.value, entries[1..], s.log)
  }

  /** Every tax leaf the loop changes now holds the value of a configured path that matches it,
      and the last configured path that finds a leaf leaves its value in the first leaf it finds. */
  lemma {:induction false} TaxesOverwritten(imp: seq<Leaf>, entries: seq<(string, string)>, log: seq<Change>)
    ensures var r := OverwriteTaxes(imp, entries, log).value;
      forall j | 0 <= j < |imp| && r[j] != imp[j] ::
        exists k | 0 <= k < |entries| :: r[j].text == entries[k].1 && Matches(imp[j].path, [], Split(entries[k].0, '/'))
    ensures var r := OverwriteTaxes(imp, entries, log).value;
      |entries| > 0 && FindLeaf(imp, [], Split(entries[|entries| - 1].0, '/')).Some? ==>
        LeafText(r, [], Split(entries[|entries| - 1].0, '/')) == Some(entries[|entries| - 1].1)
    decreases |entries|
  {
    if entries != [] {
      var s := TaxEntry(imp, entries[0], log);
      var r := OverwriteTaxes(imp, entries, log).value;
      assert r == OverwriteTaxes(s.value, entries[1..], s.log).value;
      TaxesOverwritten(s.value, entries[1..], s.log);
      forall j | 0 <= j < |imp| && r[j] != imp[j]
        ensures exists k | 0 <= k < |entries| :: r[j].text == entries[k].1 && Matches(imp[j].path, [], Split(entries[k].0, '/'))
      {
        if r[j] != s.value[j] {
          var k :| 0 <= k < |entries[1..]| && r[j].text == entries[1..][k].1 && Matches(s.value[j].path, [], Split(entries[1..][k].0, '/'));
          assert entries[k + 1] == entries[1..][k];
        } else {
          assert r[j].text == entries[0].1 && Matches(imp[j].path, [], Split(entries[0].0, '/'));
        }
      }
      if |entries| > 1 {
        assert entries[|entries| - 1] == entries[1..][|entries[1..]| - 1];
        SamePathsSameFindLeaf(s.value, imp, [], Split(entries[|entries| - 1].0, '/'));
      }
    }
  }

  /** The tax loop writes the same leaves whatever the change list holds. */
  lemma {:induction false} OverwriteTaxesValue(imp: seq<Leaf>, entries: seq<(string, string)>, log: seq<Change>, log': seq<Change>)
    ensures OverwriteTaxes(imp, entries, log).value == OverwriteTaxes(imp, entries, log').value
    decreases |entries|
  {
    if entries != [] {
      OverwriteTaxesValue(TaxEntry(imp, entries[0], log).value, entries[1..],
        TaxEntry(imp, entries[0], log).log, TaxEntry(imp, entries[0], log').log);
    }
  }

  // ---------------------------------------------------------------- CST and IPI

  /** Sets the first `tag` below the group `group` of `imposto`, logging `c`, when there is one. */
  function SetInGroup(imp: seq<Leaf>, group: string, tag: string, text: string, log: seq<Change>, c: Change): (r: Edited<seq<Leaf>>)
    ensures SamePaths(r.value, imp) && Extends(r.log, log)
  {
    if LeafText(imp, [group], [tag]).Some? then Edited(SetLeafText(imp, [group], [tag], text), log + [c])
    else Edited(imp, log)
  }

  /** Reading any group's tag after `SetInGroup`: the written one reads `text` when it was
      there, every other one reads as before. */
  lemma SetInGroupEffect(imp: seq<Leaf>, group: string, tag: string, text: string, log: seq<Change>, c: Change,
                         group': string, tag': string)
    ensures LeafText(SetInGroup(imp, group, tag, text, log, c).value, [group'], [tag']) ==
      if group' == group && tag' == tag && LeafText(imp, [group], [tag]).Some? then Some(text)
      else LeafText(imp, [group'], [tag'])
  {
    if !(group' == group && tag' == tag) {
      forall j | 0 <= j < |imp| ensures !(Matches(imp[j].path, [group], [tag]) && Matches(imp[j].path, [group'], [tag'])) {
        MatchesInGroup(imp[j].path, group, tag);
        MatchesInGroup(imp[j].path, group', tag');
      }
      SetLeafTextElsewhere(imp, [group], [tag], text, [group'], [tag']);
    }
  }

  /** `find_element(prod, 'CFOP').text`. */
  function ItemCfop(prod: Option<seq<Field>>): Option<string>
  {
    if prod.None? then None else TextOf(prod.value, "CFOP")
  }

  /** The write for one group a rule names: the group's first CST takes the rule's code. */
  function CstStep(imp: seq<Leaf>, rule: map<string, string>, group: string, log: seq<Change>, c: Change): (r: Edited<seq<Leaf>>)
    ensures SamePaths(r.value, imp) && Extends(r.log, log)
  {
    if group in rule then SetInGroup(imp, group, "CST", rule[group], log, c) else Edited(imp, log)
  }

  /** The IPI write of a rule: the IPI base is zeroed, then the IPI CST takes the rule's code. */
  function IpiStep(imp: seq<Leaf>, rule: map<string, string>, log: seq<Change>): (r: Edited<seq<Leaf>>)
    ensures SamePaths(r.value, imp) && Extends(r.log, log)
  {
    if "IPI" in rule then
      var base := SetInGroup(imp, "IPI", "vBC", "0.00", log, IpiBaseZeroed);
      SetInGroup(base.value, "IPI", "CST", rule["IPI"], base.log, IpiCst)
    else Edited(imp, log)
  }

  /** The CST remapping of one item: the rule of the item's operation code sets the CST of
      ICMS, IPI (zeroing the IPI base first), PIS and COFINS, each when the rule names it. */
  function RemapCst(cfop: Option<string>, imp: seq<Leaf>, rules: map<string, map<string, string>>, log: seq<Change>): (r: Edited<seq<Leaf>>)
    ensures SamePaths(r.value, imp) && Extends(r.log, log)
  {
    if cfop.None? || cfop.value !in rules then Edited(imp, log)
    else
      var rule := rules[cfop.value];
      var icms := CstStep(imp, rule, "ICMS", log, IcmsCst);
      var ipi := IpiStep(icms.value, rule, icms.log);
      var pis := CstStep(ipi.value, rule, "PIS", ipi.log, PisCst);
      CstStep(pis.value, rule, "COFINS", pis.log, CofinsCst)
  }

  lemma CstStepEffect(imp: seq<Leaf>, rule: map<string, string>, g: string, log: seq<Change>, c: Change, group: string, tag: string)
    ensures LeafText(CstStep(imp, rule, g, log, c).value, [group], [tag]) ==
      if g == group && tag == "CST" && g in rule && LeafText(imp, [group], [tag]).Some? then Some(rule[g])
      else LeafText(imp, [group], [tag])
  {
    if g in rule {
      SetInGroupEffect(imp, g, "CST", rule[g], log, c, group, tag);
    }
  }

  lemma IpiStepEffect(imp: seq<Leaf>, rule: map<string, string>, log: seq<Change>, group: string, tag: string)
    ensures LeafText(IpiStep(imp, rule, log).value, [group], [tag]) ==
      if group == "IPI" && (tag == "vBC" || tag == "CST") && "IPI" in rule && LeafText(imp, [group], [tag]).Some? then
        Some(if tag == "vBC" then "0.00" else rule["IPI"])
      else LeafText(imp, [group], [tag])
  {
    if "IPI" in rule {
      var base := SetInGroup(imp, "IPI", "vBC", "0.00", log, IpiBaseZeroed);
      SetInGroupEffect(imp, "IPI", "vBC", "0.00", log, IpiBaseZeroed, group, tag);
      SetInGroupEffect(base.value, "IPI", "CST", rule["IPI"], base.log, IpiCst, group, tag);
    }
  }

  /** The text the remapping leaves in the first `tag` of `group`. */
  function RemappedText(imp: seq<Leaf>, rule: map<string, string>, group: string, tag: string): Option<string>
  {
    var before := LeafText(imp, [group], [tag]);
    if before.None? then None
    else if group in CstGroups && tag == "CST" && group in rule then Some(rule[group])
    else if group == "IPI" && tag == "vBC" && "IPI" in rule then Some("0.00")
    else before
  }

  /** With a rule for the item's code, each named group's CST holds the rule's code, the IPI
      base reads "0.00" when IPI is named, and every other element keeps its text. */
  lemma CstRemapped(cfop: string, imp: seq<Leaf>, rules: map<string, map<string, string>>, log: seq<Change>, group: string, tag: string)
    requires cfop in rules
    ensures LeafText(RemapCst(Some(cfop), imp, rules, log).value, [group], [tag]) == RemappedText(imp, rules[cfop], group, tag)
  {
    var rule := rules[cfop];
    var icms := CstStep(imp, rule, "ICMS", log, IcmsCst);
    var ipi := IpiStep(icms.value, rule, icms.log);
    var pis := CstStep(ipi.value, rule, "PIS", ipi.log, PisCst);
    CstStepEffect(imp, rule, "ICMS", log, IcmsCst, group, tag);
    IpiStepEffect(icms.value, rule, icms.log, group, tag);
    CstStepEffect(ipi.value, rule, "PIS", ipi.log, PisCst, group, tag);
    CstStepEffect(pis.value, rule, "COFINS", pis.log, CofinsCst, group, tag);
  }

  /** Zeroing for shipments and returns: the first IPI value reads "0.00" and the first IPI
      rate "0.0000". */
  function ZeroIpi(cfop: Option<string>, imp: seq<Leaf>, log: seq<Change>): (r: Edited<seq<Leaf>>)
    ensures SamePaths(r.value, imp) && Extends(r.log, log)
  {
    if cfop.Some? && ShipmentOrReturn(cfop.value) then
      var v := SetInGroup(imp, "IPI", "vIPI", "0.00", log, ItemIpiZeroed);
      SetInGroup(v.value, "IPI", "pIPI", "0.0000", v.log, ItemIpiRateZeroed)
    else Edited(imp, log)
  }

  /** After zeroing, an item of a shipment or return code has a zero IPI value and rate where
      it had them; any other item is left alone. */
  lemma IpiZeroed(cfop: Option<string>, imp: seq<Leaf>, log: seq<Change>)
    ensures var r := ZeroIpi(cfop, imp, log);
      cfop.Some? && ShipmentOrReturn(cfop.value) ==>
        && LeafText(r.value, ["IPI"], ["vIPI"]) == (if LeafText(imp, ["IPI"], ["vIPI"]).Some? then Some("0.00") else None)
        && LeafText(r.value, ["IPI"], ["pIPI"]) == (if LeafText(imp, ["IPI"], ["pIPI"]).Some? then Some("0.0000") else None)
    ensures !(cfop.Some? && ShipmentOrReturn(cfop.value)) ==> ZeroIpi(cfop, imp, log) == Edited(imp, log)
  {
    if cfop.Some? && ShipmentOrReturn(cfop.value) {
      var v := SetInGroup(imp, "IPI", "vIPI", "0.00", log, ItemIpiZeroed);
      SetInGroupEffect(imp, "IPI", "vIPI", "0.00", log, ItemIpiZeroed, "IPI", "pIPI");
      SetInGroupEffect(v.value, "IPI", "pIPI", "0.0000", v.log, ItemIpiRateZeroed, "IPI", "vIPI");
      SamePathsSameFindLeaf(v.value, imp, ["IPI"], ["pIPI"]);
    }
  }

  // ---------------------------------------------------------------- one item

  /** The product entries of one item: applied when switched on, configured and the item
      has `prod`. */
  function ProductStage(item: Item, cfg: EditConfig, log: seq<Change>): (r: Edited<Option<seq<Field>>>)
    ensures r.value.Some? == item.prod.Some? && Extends(r.log, log)
    ensures item.prod.Some? ==> SameTags(r.value.value, item.prod.value)
  {
    if cfg.alter.products && NonEmpty(cfg.product) && item.prod.Some? then
      var o := OverwriteProduct(item.prod.value, cfg.product.value, log);
      Edited(Some(o.value), o.log)
    else Edited(item.prod, log)
  }

  /** The tax entries, the CST remapping and the IPI zeroing of one `imposto`, the last two
      by the item's CFOP. */
  function TaxStage(imp: seq<Leaf>, cfop: Option<string>, cfg: EditConfig, log: seq<Change>): (r: Edited<seq<Leaf>>)
    ensures SamePaths(r.value, imp) && Extends(r.log, log)
  {
    var t := if cfg.alter.taxes && NonEmpty(cfg.taxes) then OverwriteTaxes(imp, cfg.taxes.value, log) else Edited(imp, log);
    var c := if cfg.alter.cst && |cfg.cstMap| > 0 then RemapCst(cfop, t.value, cfg.cstMap, t.log) else t;
    if cfg.alter.zeroIpi then ZeroIpi(cfop, c.value, c.log) else c
  }

  /** The body of the `for det in ...` loop: product entries, then (only when the item has
      `imposto`) tax entries, CST remapping and IPI zeroing, the last two by the item's CFOP as
      the product entries left it. */
  function EditItem(item: Item, cfg: EditConfig, log: seq<Change>): (r: Edited<Item>)
    ensures r.value.prod.Some? == item.prod.Some? && r.value.imposto.Some? == item.imposto.Some?
    ensures item.prod.Some? ==> SameTags(r.value.prod.value, item.prod.value)
    ensures item.imposto.Some? ==> SamePaths(r.value.imposto.value, item.imposto.value)
    ensures Extends(r.log, log)
  {
    var p := ProductStage(item, cfg, log);
    if item.imposto.None? then Edited(Item(p.value, None), p.log)
    else
      var z := TaxStage(item.imposto.value, ItemCfop(p.value), cfg, p.log);
      Edited(Item(p.value, Some(z.value)), z.log)
  }

  lemma RemapCstValue(cfop: Option<string>, imp: seq<Leaf>, rules: map<string, map<string, string>>, log: seq<Change>, log': seq<Change>)
    ensures RemapCst(cfop, imp, rules, log).value == RemapCst(cfop, imp, rules, log').value
  {
    if cfop.Some? && cfop.value in rules {
      var rule := rules[cfop.value];
      var icms, icms' := CstStep(imp, rule, "ICMS", log, IcmsCst), CstStep(imp, rule, "ICMS", log', IcmsCst);
      CstStepValue(imp, rule, "ICMS", log, log', IcmsCst);
      var ipi, ipi' := IpiStep(icms.value, rule, icms.log), IpiStep(icms.value, rule, icms'.log);
      IpiStepValue(icms.value, rule, icms.log, icms'.log);
      var pis, pis' := CstStep(ipi.value, rule, "PIS", ipi.log, PisCst), CstStep(ipi.value, rule, "PIS", ipi'.log, PisCst);
      CstStepValue(ipi.value, rule, "PIS", ipi.log, ipi'.log, PisCst);
      CstStepValue(pis.value, rule, "COFINS", pis.log, pis'.log, CofinsCst);
    }
  }

  lemma CstStepValue(imp: seq<Leaf>, rule: map<string, string>, group: string, log: seq<Change>, log': seq<Change>, c: Change)
    ensures CstStep(imp, rule, group, log, c).value == CstStep(imp, rule, group, log', c).value
  {
  }

  lemma IpiStepValue(imp: seq<Leaf>, rule: map<string, string>, log: seq<Change>, log': seq<Change>)
    ensures IpiStep(imp, rule, log).value == IpiStep(imp, rule, log').value
  {
  }

  lemma ZeroIpiValue(cfop: Option<string>, imp: seq<Leaf>, log: seq<Change>, log': seq<Change>)
    ensures ZeroIpi(cfop, imp, log).value == ZeroIpi(cfop, imp, log').value
  {
  }

  lemma TaxStageValue(imp: seq<Leaf>, cfop: Option<string>, cfg: EditConfig, log: seq<Change>, log': seq<Change>)
    ensures TaxStage(imp, cfop, cfg, log).value == TaxStage(imp, cfop, cfg, log').value
  {
    var t := if cfg.alter.taxes && NonEmpty(cfg.taxes) then OverwriteTaxes(imp, cfg.taxes.value, log) else Edited(imp, log);
    var t' := if cfg.alter.taxes && NonEmpty(cfg.taxes) then OverwriteTaxes(imp, cfg.taxes.value, log') else Edited(imp, log');
    if cfg.alter.taxes && NonEmpty(cfg.taxes) {
      OverwriteTaxesValue(imp, cfg.taxes.value, log, log');
    }
    RemapCstValue(cfop, t.value, cfg.cstMap, t.log, t'.log);
    var c := if cfg.alter.cst && |cfg.cstMap| > 0 then RemapCst(cfop, t.value, cfg.cstMap, t.log) else t;
    var c' := if cfg.alter.cst && |cfg.cstMap| > 0 then RemapCst(cfop, t'.value, cfg.cstMap, t'.log) else t';
    ZeroIpiValue(cfop, c.value, c.log, c'.log);
  }

  /** The item after editing does not depend on the change list so far. */
  lemma EditItemValue(item: Item, cfg: EditConfig, log: seq<Change>, log': seq<Change>)
    ensures EditItem(item, cfg, log).value == EditItem(item, cfg, log').value
  {
    if cfg.alter.products && NonEmpty(cfg.product) && item.prod.Some? {
      OverwriteProductValue(item.prod.value, cfg.product.value, log, log');
    }
    var p := ProductStage(item, cfg, log);
    var p' := ProductStage(item, cfg, log');
    if item.imposto.Some? {
      TaxStageValue(item.imposto.value, ItemCfop(p.value), cfg, p.log, p'.log);
    }
  }

  /** The product as the product entries leave it (what the CST and zeroing steps read). */
  function EditedProduct(item: Item, cfg: EditConfig): Option<seq<Field>>
  {
    ProductStage(item, cfg, []).value
  }

  /** With zeroing on, an item whose (edited) CFOP is a shipment or return code and whose IPI
      group has a value ends with that value at "0.00", whatever the other steps did. */
  lemma ShipmentItemIpiZero(item: Item, cfg: EditConfig, log: seq<Change>)
    requires cfg.alter.zeroIpi && item.imposto.Some?
    requires var c := ItemCfop(EditedProduct(item, cfg)); c.Some? && ShipmentOrReturn(c.value)
    requires LeafText(item.imposto.value, ["IPI"], ["vIPI"]).Some?
    ensures LeafText(EditItem(item, cfg, log).value.imposto.value, ["IPI"], ["vIPI"]) == Some("0.00")
  {
    EditItemValue(item, cfg, log, []);
    ItemTaxes(item, cfg);
    TaxStageIpiZero(item.imposto.value, ItemCfop(EditedProduct(item, cfg)), cfg, ProductStage(item, cfg, []).log);
  }

  /** The tax stage, with zeroing on and a shipment or return code, leaves "0.00" in a present IPI value. */
  lemma TaxStageIpiZero(imp: seq<Leaf>, cfop: Option<string>, cfg: EditConfig, log: seq<Change>)
    requires cfg.alter.zeroIpi && cfop.Some? && ShipmentOrReturn(cfop.value)
    requires LeafText(imp, ["IPI"], ["vIPI"]).Some?
    ensures LeafText(TaxStage(imp, cfop, cfg, log).value, ["IPI"], ["vIPI"]) == Some("0.00")
  {
    var t := if cfg.alter.taxes && NonEmpty(cfg.taxes) then OverwriteTaxes(imp, cfg.taxes.value, log) else Edited(imp, log);
    var c := if cfg.alter.cst && |cfg.cstMap| > 0 then RemapCst(cfop, t.value, cfg.cstMap, t.log) else t;
    SamePathsSameFindLeaf(c.value, imp, ["IPI"], ["vIPI"]);
    IpiZeroed(cfop, c.value, c.log);
  }

  /** With the tax entries off, an item that is not zeroed keeps its IPI value: the CST
      remapping never writes it. */
  lemma OtherItemIpiKept(item: Item, cfg: EditConfig, log: seq<Change>)
    requires item.imposto.Some? && !(cfg.alter.taxes && NonEmpty(cfg.taxes))
    requires var c := ItemCfop(EditedProduct(item, cfg)); !cfg.alter.zeroIpi || c.None? || !ShipmentOrReturn(c.value)
    ensures LeafText(EditItem(item, cfg, log).value.imposto.value, ["IPI"], ["vIPI"]) ==
      LeafText(item.imposto.value, ["IPI"], ["vIPI"])
  {
    EditItemValue(item, cfg, log, []);
    ItemTaxes(item, cfg);
    TaxStageIpiKept(item.imposto.value, ItemCfop(EditedProduct(item, cfg)), cfg, ProductStage(item, cfg, []).log);
  }

  /** The edited `imposto` of an item is its tax stage, by the CFOP the product entries leave. */
  lemma ItemTaxes(item: Item, cfg: EditConfig)
    requires item.imposto.Some?
    ensures EditItem(item, cfg, []).value.imposto ==
      Some(TaxStage(item.imposto.value, ItemCfop(EditedProduct(item, cfg)), cfg, ProductStage(item, cfg, []).log).value)
  {
  }

  /** The tax stage, with the tax entries off and no zeroing, leaves the IPI value alone. */
  lemma TaxStageIpiKept(imp: seq<Leaf>, cfop: Option<string>, cfg: EditConfig, log: seq<Change>)
    requires !(cfg.alter.taxes && NonEmpty(cfg.taxes))
    requires !cfg.alter.zeroIpi || cfop.None? || !ShipmentOrReturn(cfop.value)
    ensures LeafText(TaxStage(imp, cfop, cfg, log).value, ["IPI"], ["vIPI"]) == LeafText(imp, ["IPI"], ["vIPI"])
  {
    var c := if cfg.alter.cst && |cfg.cstMap| > 0 then RemapCst(cfop, imp, cfg.cstMap, log) else Edited(imp, log);
    if cfg.alter.cst && |cfg.cstMap| > 0 && cfop.Some? && cfop.value in cfg.cstMap {
      CstRemapped(cfop.value, imp, cfg.cstMap, log, "IPI", "vIPI");
    }
    if cfg.alter.zeroIpi {
      IpiZeroed(cfop, c.value, c.log);
    }
  }

  // ---------------------------------------------------------------- all items

  /** The items loop in order, `done` holding the items already edited. */
  function EditItemsFrom(done: seq<Item>, items: seq<Item>, cfg: EditConfig, log: seq<Change>): (r: Edited<seq<Item>>)
    ensures |r.value| == |done| + |items| && Extends(r.log, log)
    decreases |items|
  {
    if items == [] then Edited(done, log)
    else
      var h := EditItem(items[0], cfg, log);
      EditItemsFrom(done + [h.value], items[1..], cfg, h.log)
  }

  /** Item by item: the edited list keeps `done` and holds each item edited on its own. */
  lemma EditedItems(done: seq<Item>, items: seq<Item>, cfg: EditConfig, log: seq<Change>)
    ensures var r := EditItemsFrom(done, items, cfg, log).value;
      && (forall i | 0 <= i < |done| :: r[i] == done[i])
      && (forall i | 0 <= i < |items| :: r[|done| + i] == EditItem(items[i], cfg, []).value)
  {
    EditedItemsKeepDone(done, items, cfg, log);
    EditedItemsEach(done, items, cfg, log);
  }

  /** The items already edited stay in front. */
  lemma {:induction false} EditedItemsKeepDone(done: seq<Item>, items: seq<Item>, cfg: EditConfig, log: seq<Change>)
    ensures var r := EditItemsFrom(done, items, cfg, log).value;
      forall i | 0 <= i < |done| :: r[i] == done[i]
    decreases |items|
  {
    if items != [] {
      var h := EditItem(items[0], cfg, log);
      EditedItemsKeepDone(done + [h.value], items[1..], cfg, h.log);
      assert forall i | 0 <= i < |done| :: (done + [h.value])[i] == done[i];
    }
  }

  /** Each remaining item is edited on its own, whatever the change list before it. */
  lemma {:induction false} EditedItemsEach(done: seq<Item>, items: seq<Item>, cfg: EditConfig, log: seq<Change>)
    ensures var r := EditItemsFrom(done, items, cfg, log).value;
      forall i | 0 <= i < |items| :: r[|done| + i] == EditItem(items[i], cfg, []).value
    decreases |items|
  {
    if items != [] {
      var h := EditItem(items[0], cfg, log);
      var done' := done + [h.value];
      var r := EditItemsFrom(done, items, cfg, log).value;
      assert r == EditItemsFrom(done', items[1..], cfg, h.log).value;
      EditedItemsEach(done', items[1..], cfg, h.log);
      EditedItemsKeepDone(done', items[1..], cfg, h.log);
      EditItemValue(items[0], cfg, log, []);
      assert r[|done|] == done'[|done|];
      forall i | 0 <= i < |items| ensures r[|done| + i] == EditItem(items[i], cfg, []).value {
        if i > 0 {
          assert items[i] == items[1..][i - 1];
          assert |done| + i == |done'| + (i - 1);
        }
      }
    }
  }
}
