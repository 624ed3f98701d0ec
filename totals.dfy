/** The recomputation of `total/ICMSTot` that follows IPI zeroing: six running `Decimal` sums
    over the items, then `vIPI` and `vNF` written back quantized to 0.01. */
module Totals {
  import opened Wrappers
  import opened Text
  import opened Money
  import opened Documents
  import opened Changes
  import opened ItemEdit

  /** The running sums `soma_vprod`, `soma_vdesc`, `soma_vfrete`, `soma_vseg`, `soma_voutro`, `soma_vipi`. */
  datatype Sums = Sums(vProd: real, vDesc: real, vFrete: real, vSeg: real, vOutro: real, vIpi: real)

  const NoSums := Sums(0.0, 0.0, 0.0, 0.0, 0.0, 0.0)

  function Add(a: Sums, b: Sums): Sums
  {
    Sums(a.vProd + b.vProd, a.vDesc + b.vDesc, a.vFrete + b.vFrete, a.vSeg + b.vSeg, a.vOutro + b.vOutro, a.vIpi + b.vIpi)
  }

  /** `novo_vnf`: products less discounts plus freight, insurance, other costs and IPI. */
  function InvoiceTotal(s: Sums): real
  {
    s.vProd - s.vDesc + s.vFrete + s.vSeg + s.vOutro + s.vIpi
  }

  /** `safe_get_decimal`: a missing or empty element counts 0, any other text must parse. */
  function Amount(text: Option<string>): Option<real>
  {
    if text.None? || text.value == "" then Some(0.0) else ParseDecimal(text.value)
  }

  function FieldAmount(prod: Option<seq<Field>>, tag: string): Option<real>
  {
    Amount(if prod.None? then None else TextOf(prod.value, tag))
  }

  /** The item's `IPI//vIPI`, counted only when present and non-empty. */
  function IpiAmount(imp: Option<seq<Leaf>>): Option<real>
  {
    Amount(if imp.None? then None else LeafText(imp.value, ["IPI"], ["vIPI"]))
  }

  /** What one `det` adds to the six sums; `None` when one of its amounts does not parse. */
  function ItemSums(item: Item): (r: Option<Sums>)
    ensures r.Some? <==>
      && FieldAmount(item.prod, "vProd").Some? && FieldAmount(item.prod, "vDesc").Some?
      && FieldAmount(item.prod, "vFrete").Some? && FieldAmount(item.prod, "vSeg").Some?
      && FieldAmount(item.prod, "vOutro").Some? && IpiAmount(item.imposto).Some?
    ensures r.Some? ==> r.value.vIpi == IpiAmount(item.imposto).value && r.value.vProd == FieldAmount(item.prod, "vProd").value
  {
    var p, d, f := FieldAmount(item.prod, "vProd"), FieldAmount(item.prod, "vDesc"), FieldAmount(item.prod, "vFrete");
    var s, o, i := FieldAmount(item.prod, "vSeg"), FieldAmount(item.prod, "vOutro"), IpiAmount(item.imposto);
    if p.Some? && d.Some? && f.Some? && s.Some? && o.Some? && i.Some? then
      Some(Sums(p.value, d.value, f.value, s.value, o.value, i.value))
    else None
  }

  /** The sums after the loop has seen `items`, in document order; `None` once an amount
      fails to parse (the `Decimal` error ends the file's edit). */
  function Total(items: seq<Item>): Option<Sums>
    decreases |items|
  {
    if items == [] then Some(NoSums)
    else
      match Total(items[..|items| - 1])
      case None => None
      case Some(s) =>
        match ItemSums(items[|items| - 1])
        case None => None
        case Some(a) => Some(Add(s, a))
  }

  /** The summing loop, with the six running sums. */
  method SumItems(items: seq<Item>) returns (r: Option<Sums>)
    ensures r == Total(items)
  {
    var vProd, vDesc, vFrete, vSeg, vOutro, vIpi := 0.0, 0.0, 0.0, 0.0, 0.0, 0.0;
    assert items[..0] == [];
    for i := 0 to |items|
      invariant Total(items[..i]) == Some(Sums(vProd, vDesc, vFrete, vSeg, vOutro, vIpi))
    {
      var item := items[i];
      var p := FieldAmount(item.prod, "vProd");
      var d := FieldAmount(item.prod, "vDesc");
      var f := FieldAmount(item.prod, "vFrete");
      var s := FieldAmount(item.prod, "vSeg");
      var o := FieldAmount(item.prod, "vOutro");
      var v := IpiAmount(item.imposto);
      TotalSnoc(items, i);
      if p.None? || d.None? || f.None? || s.None? || o.None? || v.None? {
        TotalStaysFailed(items, i + 1);
        return None;
      }
      ghost var before := Sums(vProd, vDesc, vFrete, vSeg, vOutro, vIpi);
      ItemSumsParts(item);
      vProd, vDesc, vFrete := vProd + p.value, vDesc + d.value, vFrete + f.value;
      vSeg, vOutro, vIpi := vSeg + s.value, vOutro + o.value, vIpi + v.value;
      assert Sums(vProd, vDesc, vFrete, vSeg, vOutro, vIpi) == Add(before, ItemSums(item).value);
    }
    assert items[..|items|] == items;
    r := Some(Sums(vProd, vDesc, vFrete, vSeg, vOutro, vIpi));
  }

  /** The six amounts of an item, when all of them parse. */
  lemma ItemSumsParts(item: Item)
    requires FieldAmount(item.prod, "vProd").Some? && FieldAmount(item.prod, "vDesc").Some?
    requires FieldAmount(item.prod, "vFrete").Some? && FieldAmount(item.prod, "vSeg").Some?
    requires FieldAmount(item.prod, "vOutro").Some? && IpiAmount(item.imposto).Some?
    ensures ItemSums(item) == Some(Sums(FieldAmount(item.prod, "vProd").value, FieldAmount(item.prod, "vDesc").value,
      FieldAmount(item.prod, "vFrete").value, FieldAmount(item.prod, "vSeg").value, FieldAmount(item.prod, "vOutro").value,
      IpiAmount(item.imposto).value))
  {
  }

  /** One more item. */
  lemma TotalSnoc(items: seq<Item>, i: nat)
    requires i < |items|
    ensures Total(items[..i + 1]) ==
      if Total(items[..i]).Some? && ItemSums(items[i]).Some? then Some(Add(Total(items[..i]).value, ItemSums(items[i]).value))
      else None
  {
    assert items[..i + 1][..i] == items[..i];
    assert items[..i + 1][i] == items[i];
  }

  /** Once a prefix fails, so does the whole list. */
  lemma TotalStaysFailed(items: seq<Item>, n: nat)
    requires n <= |items| && Total(items[..n]).None?
    ensures Total(items).None?
    decreases |items| - n
  {
    if n < |items| {
      assert items[..n + 1][..n] == items[..n];
      TotalStaysFailed(items, n + 1);
    } else {
      assert items[..n] == items;
    }
  }

  /** The sums fail exactly when some item has an amount that does not parse. */
  lemma TotalFailsExactly(items: seq<Item>)
    ensures Total(items).None? <==> exists i | 0 <= i < |items| :: ItemSums(items[i]).None?
  {
    if Total(items).None? {
      FailingItem(items);
    } else {
      forall i | 0 <= i < |items| ensures ItemSums(items[i]).Some? {
        if ItemSums(items[i]).None? {
          FailsFromItem(items, i);
        }
      }
    }
  }

  /** An item whose amounts do not parse makes the whole sum fail. */
  lemma FailsFromItem(items: seq<Item>, i: nat)
    requires i < |items| && ItemSums(items[i]).None?
    ensures Total(items).None?
  {
    TotalSnoc(items, i);
    TotalStaysFailed(items, i + 1);
    assert items[..|items|] == items;
  }

  /** A failed sum has an item whose amounts do not parse. */
  lemma {:induction false} FailingItem(items: seq<Item>)
    requires Total(items).None?
    ensures exists i | 0 <= i < |items| :: ItemSums(items[i]).None?
    decreases |items|
  {
    var n := |items| - 1;
    if ItemSums(items[n]).Some? {
      var front := items[..n];
      FailingItem(front);
      var i :| 0 <= i < |front| && ItemSums(front[i]).None?;
      assert items[i] == front[i];
    }
  }

  /** The sums are additive: summing two runs of items one after the other is summing each
      and adding the results, so the order of the loop does not matter to the totals. */
  lemma {:induction false} TotalAdditive(a: seq<Item>, b: seq<Item>)
    ensures Total(a + b) ==
      if Total(a).Some? && Total(b).Some? then Some(Add(Total(a).value, Total(b).value)) else None
    decreases |b|
  {
    if b == [] {
      assert a + b == a;
      AddNothing(Total(a));
    } else {
      var n := |b| - 1;
      ConcatPrefixes(a, b);
      TotalSnoc(b, n);
      TotalSnoc(a + b, |a| + n);
      TotalAdditive(a, b[..n]);
      if Total(a).Some? && Total(b[..n]).Some? && ItemSums(b[n]).Some? {
        AddAssociative(Total(a).value, Total(b[..n]).value, ItemSums(b[n]).value);
      }
    }
  }

  /** The prefixes of `a + b` that end inside `b`. */
  lemma ConcatPrefixes(a: seq<Item>, b: seq<Item>)
    requires b != []
    ensures b[..|b| - 1 + 1] == b
    ensures (a + b)[..|a| + (|b| - 1)] == a + b[..|b| - 1]
    ensures (a + b)[..|a| + (|b| - 1) + 1] == a + b
    ensures (a + b)[|a| + (|b| - 1)] == b[|b| - 1]
  {
  }

  lemma AddNothing(t: Option<Sums>)
    ensures t.Some? ==> Add(t.value, NoSums) == t.value
  {
  }

  lemma AddAssociative(x: Sums, y: Sums, z: Sums)
    ensures Add(Add(x, y), z) == Add(x, Add(y, z))
  {
  }

  /** When every item's IPI amount is zero, the IPI total is zero. */
  lemma {:induction false} ZeroIpiTotal(items: seq<Item>)
    requires Total(items).Some?
    requires forall i | 0 <= i < |items| :: IpiAmount(items[i].imposto) == Some(0.0)
    ensures Total(items).value.vIpi == 0.0
    decreases |items|
  {
    if items != [] {
      var front := items[..|items| - 1];
      assert forall i | 0 <= i < |front| :: front[i] == items[i];
      ZeroIpiTotal(front);
    }
  }

  /** An IPI value zeroed by the edit pass counts zero. */
  lemma ZeroedTextCountsZero()
    ensures Amount(Some("0.00")) == Some(0.0)
  {
    assert Split("0.00", '.') == ["0", "00"] by {
      SplitAtPoint("0", "00");
      assert "0" + "." + "00" == "0.00";
    }
    assert DigitsValue("00") == 0 by {
      assert "00"[..1] == "0";
    }
  }

  /** The write-back of `total/ICMSTot`: `vIPI` takes the IPI sum and `vNF` the invoice total,
      each quantized to 0.01 and each only when the element exists. */
  function WriteTotals(totals: seq<Field>, s: Sums, log: seq<Change>): (r: Edited<seq<Field>>)
    ensures SameTags(r.value, totals) && Extends(r.log, log)
  {
    var ipi :=
      if Find(totals, "vIPI").Some? then Edited(SetText(totals, "vIPI", FormatAmount(s.vIpi)), log + [TotalIpi])
      else Edited(totals, log);
    if Find(ipi.value, "vNF").Some? then Edited(SetText(ipi.value, "vNF", FormatAmount(InvoiceTotal(s))), ipi.log + [TotalInvoice])
    else ipi
  }

  /** The recomputation over the edited items; `None` when an amount does not parse. */
  function RecomputeTotals(totals: seq<Field>, items: seq<Item>, log: seq<Change>): (r: Option<Edited<seq<Field>>>)
    ensures r.Some? <==> Total(items).Some?
  {
    match Total(items)
    case None => None
    case Some(s) => Some(WriteTotals(totals, s, log))
  }

  /** Reading the totals back: `vIPI` parses to the IPI sum and `vNF` to the invoice total,
      each rounded half-up to the cent; every other total keeps its text. */
  lemma TotalsReadBack(totals: seq<Field>, s: Sums, log: seq<Change>)
    ensures var r := WriteTotals(totals, s, log).value;
      && (Find(totals, "vIPI").Some? ==>
            TextOf(r, "vIPI") == Some(FormatAmount(s.vIpi))
            && ParseDecimal(FormatAmount(s.vIpi)) == Some(RoundHalfUpCents(s.vIpi) as real / 100.0))
      && (Find(totals, "vNF").Some? ==>
            TextOf(r, "vNF") == Some(FormatAmount(InvoiceTotal(s)))
            && ParseDecimal(FormatAmount(InvoiceTotal(s))) == Some(RoundHalfUpCents(InvoiceTotal(s)) as real / 100.0))
      && (forall t | t != "vIPI" && t != "vNF" :: TextOf(r, t) == TextOf(totals, t))
  {
    FormatAmountRoundTrip(s.vIpi);
    FormatAmountRoundTrip(InvoiceTotal(s));
    var ipi :=
      if Find(totals, "vIPI").Some? then Edited(SetText(totals, "vIPI", FormatAmount(s.vIpi)), log + [TotalIpi])
      else Edited(totals, log);
    SameTagsSameFind(ipi.value, totals, "vNF");
  }

  /** A zero IPI sum is written as "0.00". */
  lemma ZeroWrittenAsZero()
    ensures FormatAmount(0.0) == "0.00"
  {
  }
}
