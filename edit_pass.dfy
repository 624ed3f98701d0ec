/** The edit pass over a folder (`editar_arquivos`): the key maps are built from every invoice
    summary first, then each `.xml` file is edited on its own inside a `try`, counted and
    written back. */
module EditPass {
  import opened Wrappers
  import opened Text
  import opened CheckDigit
  import opened Config
  import opened Documents
  import opened Changes
  import opened Dates
  import opened FileInfo
  import opened Mappings
  import opened InvoiceEdit

  /** What became of one file: left alone by a `continue`, failed inside the `try`, or edited
      with its change list; `saved` is false when writing it back raised. */
  datatype FileOutcome =
    | Skipped
    | Failed
    | Done(doc: Document, changes: seq<Change>, saved: bool)

  /** The outcome of every file, in folder order, with `total_editados` and `total_erros`. */
  datatype PassReport = PassReport(outcomes: seq<FileOutcome>, edited: nat, errors: nat)

  // ---------------------------------------------------------------- one file

  /** The `procInutNFe` branch: the CNPJ with the issuer switch on and issuer entries configured
      (the configured CNPJ, empty when it has none); the year and the receipt timestamp with the
      date switch on and a date configured; `None` when that date does not parse. */
  function EditVoiding(v: Voiding, cfg: EditConfig, now: TimeOfDay): Option<Edited<Voiding>>
  {
    var c :=
      if cfg.alter.issuer && NonEmpty(cfg.issuer) && v.cnpj.Some? then
        Edited(v.(cnpj := Some(Lookup(cfg.issuer.value, "CNPJ").GetOr(""))), [VoidingCnpj])
      else Edited(v, []);
    if !cfg.alter.date || cfg.newDate.Unset? then Some(c)
    else if cfg.newDate.Unparsable? then None
    else
      var d := cfg.newDate.date;
      var y := if c.value.year.Some? then Edited(c.value.(year := Some(ShortYear(d))), c.log + [VoidingYear]) else c;
      if y.value.received.Some? then Some(Edited(y.value.(received := Some(Timestamp(d, now))), y.log + [VoidingReceived]))
      else Some(y)
  }

  /** A root tag the pass leaves alone: a transport document or an event. */
  predicate SkippedRoot(tag: string)
  {
    Contains(tag, "cteProc") || Contains(tag, "CTe") || Contains(tag, "procEventoNFe")
  }

  /** The body of the per-file `try`; `unwritable` holds the names whose write-back raises. */
  function EditFileSpec(f: XmlFile, maps: KeyMaps, cfg: EditConfig, now: TimeOfDay, unwritable: set<string>): FileOutcome
  {
    if f.doc.None? then Failed
    else
      var doc := f.doc.value;
      if Contains(doc.rootTag, "procInutNFe") then
        match EditVoiding(doc.voiding, cfg, now)
        case None => Failed
        case Some(e) => Done(doc.(voiding := e.value), e.log, f.name !in unwritable)
      else if SkippedRoot(doc.rootTag) || doc.infNFe.None? then Skipped
      else
        match EditNFeSpec(doc.infNFe.value, doc.protocol, maps, cfg, now)
        case None => Failed
        case Some(s) => Done(doc.(infNFe := Some(s.inv), protocol := s.protocol), s.log, f.name !in unwritable)
  }

  /** The per-file `try`, with the invoice edited in place by the editor. */
  method EditFile(f: XmlFile, maps: KeyMaps, cfg: EditConfig, now: TimeOfDay, unwritable: set<string>) returns (o: FileOutcome)
    ensures o == EditFileSpec(f, maps, cfg, now, unwritable)
  {
    if f.doc.None? {
      return Failed;
    }
    var doc := f.doc.value;
    var changes: seq<Change>;
    if Contains(doc.rootTag, "procInutNFe") {
      var e := EditVoiding(doc.voiding, cfg, now);
      if e.None? {
        return Failed;
      }
      doc, changes := doc.(voiding := e.value.value), e.value.log;
    } else if SkippedRoot(doc.rootTag) || doc.infNFe.None? {
      return Skipped;
    } else {
      var r := EditNFe(doc.infNFe.value, doc.protocol, maps, cfg, now);
      if r.None? {
        return Failed;
      }
      doc, changes := doc.(infNFe := Some(r.value.inv), protocol := r.value.protocol), r.value.log;
    }
    o := Done(doc, changes, f.name !in unwritable);
  }

  // ---------------------------------------------------------------- the folder

  /** `total_editados` counts the files that ended the `try` with changes. */
  predicate CountsEdited(o: FileOutcome) { o.Done? && o.changes != [] }

  /** `total_erros` counts the files whose `try` raised, in the edit or in the write-back. */
  predicate CountsError(o: FileOutcome) { o.Failed? || (o.Done? && !o.saved) }

  function EditedCount(os: seq<FileOutcome>): nat
  {
    if os == [] then 0 else EditedCount(os[..|os| - 1]) + (if CountsEdited(os[|os| - 1]) then 1 else 0)
  }

  function ErrorCount(os: seq<FileOutcome>): nat
  {
    if os == [] then 0 else ErrorCount(os[..|os| - 1]) + (if CountsError(os[|os| - 1]) then 1 else 0)
  }

  /** Each file edited on its own, the i-th at the clock reading `clock(i)`. */
  function Outcomes(files: seq<XmlFile>, maps: KeyMaps, cfg: EditConfig, clock: nat -> TimeOfDay, unwritable: set<string>): (r: seq<FileOutcome>)
    ensures |r| == |files|
  {
    seq(|files|, i requires 0 <= i < |files| => EditFileSpec(files[i], maps, cfg, clock(i), unwritable))
  }

  /** The whole pass: a failure while building the key maps ends it before any file is touched. */
  function EditPassSpec(files: seq<XmlFile>, cfg: EditConfig, clock: nat -> TimeOfDay, unwritable: set<string>): Result<PassReport, SetupError>
  {
    match BuildKeyMapsSpec(Infos(files), cfg)
    case Failure(e) => Failure(e)
    case Success(maps) =>
      var os := Outcomes(files, maps, cfg, clock, unwritable);
      Success(PassReport(os, EditedCount(os), ErrorCount(os)))
  }

  /** `editar_arquivos` on the `.xml` files of the folder, in listing order. */
  method EditFolder(files: seq<XmlFile>, cfg: EditConfig, clock: nat -> TimeOfDay, unwritable: set<string>) returns (r: Result<PassReport, SetupError>)
    ensures r == EditPassSpec(files, cfg, clock, unwritable)
  {
    var built := BuildKeyMaps(Infos(files), cfg);
    if built.Failure? {
      return Failure(built.error);
    }
    var maps := built.value;
    var outcomes: seq<FileOutcome> := [];
    var edited, errors := 0, 0;
    for i := 0 to |files|
      invariant outcomes == Outcomes(files[..i], maps, cfg, clock, unwritable)
      invariant edited == EditedCount(outcomes) && errors == ErrorCount(outcomes)
    {
      var o := EditFile(files[i], maps, cfg, clock(i), unwritable);
      OutcomesSnoc(files, i, maps, cfg, clock, unwritable);
      CountsSnoc(outcomes, o);
      outcomes := outcomes + [o];
      if CountsEdited(o) {
        edited := edited + 1;
      }
      if CountsError(o) {
        errors := errors + 1;
      }
    }
    assert files[..|files|] == files;
    r := Success(PassReport(outcomes, edited, errors));
  }

  /** One more outcome adds to each count exactly when it counts. */
  lemma CountsSnoc(os: seq<FileOutcome>, o: FileOutcome)
    ensures EditedCount(os + [o]) == EditedCount(os) + (if CountsEdited(o) then 1 else 0)
    ensures ErrorCount(os + [o]) == ErrorCount(os) + (if CountsError(o) then 1 else 0)
  {
    assert (os + [o])[..|os|] == os;
  }

  /** The outcomes of one more file of the folder. */
  lemma OutcomesSnoc(files: seq<XmlFile>, i: nat, maps: KeyMaps, cfg: EditConfig, clock: nat -> TimeOfDay, unwritable: set<string>)
    requires i < |files|
    ensures Outcomes(files[..i + 1], maps, cfg, clock, unwritable) ==
      Outcomes(files[..i], maps, cfg, clock, unwritable) + [EditFileSpec(files[i], maps, cfg, clock(i), unwritable)]
  {
    var a := Outcomes(files[..i + 1], maps, cfg, clock, unwritable);
    var b := Outcomes(files[..i], maps, cfg, clock, unwritable) + [EditFileSpec(files[i], maps, cfg, clock(i), unwritable)];
    forall j | 0 <= j <= i ensures a[j] == b[j] {
      assert files[..i + 1][j] == files[j];
    }
  }

  // ---------------------------------------------------------------- what the pass promises

  /** A voiding file fails exactly when the date switch is on and the date does not parse;
      otherwise each of its three elements is rewritten exactly when present and switched on,
      the log names exactly the rewritten ones, and the new year and timestamp are those of the
      configured date. */
  lemma VoidingRewritten(v: Voiding, cfg: EditConfig, now: TimeOfDay)
    ensures EditVoiding(v, cfg, now).None? <==> cfg.alter.date && cfg.newDate.Unparsable?
    ensures EditVoiding(v, cfg, now).Some? ==>
      var e := EditVoiding(v, cfg, now).value;
      var onCnpj := cfg.alter.issuer && NonEmpty(cfg.issuer) && v.cnpj.Some?;
      var onDate := cfg.alter.date && cfg.newDate.Parsed?;
      && (VoidingCnpj in e.log <==> onCnpj)
      && (VoidingYear in e.log <==> onDate && v.year.Some?)
      && (VoidingReceived in e.log <==> onDate && v.received.Some?)
      && (forall c | c in e.log :: c == VoidingCnpj || c == VoidingYear || c == VoidingReceived)
      && e.value.cnpj == (if onCnpj then Some(Lookup(cfg.issuer.value, "CNPJ").GetOr("")) else v.cnpj)
      && (onDate && v.year.Some? ==>
            |e.value.year.value| == 2 && DigitsValue(e.value.year.value) == cfg.newDate.date.year % 100)
      && (!(onDate && v.year.Some?) ==> e.value.year == v.year)
      && e.value.received == (if onDate && v.received.Some? then Some(Timestamp(cfg.newDate.date, now)) else v.received)
  {
    if EditVoiding(v, cfg, now).Some? {
      VoidingLog(v, cfg, now);
      VoidingValues(v, cfg, now);
      var onDate := cfg.alter.date && cfg.newDate.Parsed?;
      LogMembers(cfg.alter.issuer && NonEmpty(cfg.issuer) && v.cnpj.Some?, onDate && v.year.Some?, onDate && v.received.Some?);
    }
  }

  /** Which messages a voiding change list holds. */
  lemma LogMembers(cnpj: bool, year: bool, received: bool)
    ensures var log := (if cnpj then [VoidingCnpj] else []) + (if year then [VoidingYear] else [])
        + (if received then [VoidingReceived] else []);
      && (VoidingCnpj in log <==> cnpj) && (VoidingYear in log <==> year) && (VoidingReceived in log <==> received)
      && (forall c | c in log :: c == VoidingCnpj || c == VoidingYear || c == VoidingReceived)
  {
  }

  /** The change list of a voiding file, message by message. */
  lemma VoidingLog(v: Voiding, cfg: EditConfig, now: TimeOfDay)
    requires EditVoiding(v, cfg, now).Some?
    ensures var e := EditVoiding(v, cfg, now).value;
      var onCnpj := cfg.alter.issuer && NonEmpty(cfg.issuer) && v.cnpj.Some?;
      var onDate := cfg.alter.date && cfg.newDate.Parsed?;
      e.log == (if onCnpj then [VoidingCnpj] else []) + (if onDate && v.year.Some? then [VoidingYear] else [])
        + (if onDate && v.received.Some? then [VoidingReceived] else [])
  {
  }

  /** The elements of a voiding file after the edit. */
  lemma VoidingValues(v: Voiding, cfg: EditConfig, now: TimeOfDay)
    requires EditVoiding(v, cfg, now).Some?
    ensures var e := EditVoiding(v, cfg, now).value;
      var onCnpj := cfg.alter.issuer && NonEmpty(cfg.issuer) && v.cnpj.Some?;
      var onDate := cfg.alter.date && cfg.newDate.Parsed?;
      && e.value.cnpj == (if onCnpj then Some(Lookup(cfg.issuer.value, "CNPJ").GetOr("")) else v.cnpj)
      && e.value.year == (if onDate && v.year.Some? then Some(ShortYear(cfg.newDate.date)) else v.year)
      && e.value.received == (if onDate && v.received.Some? then Some(Timestamp(cfg.newDate.date, now)) else v.received)
  {
  }

  /** No outcome counts as edited: nothing is reported. */
  lemma {:induction false} NothingEdited(os: seq<FileOutcome>)
    requires forall i | 0 <= i < |os| :: !CountsEdited(os[i])
    ensures EditedCount(os) == 0
  {
    if os != [] {
      var init := os[..|os| - 1];
      assert forall i | 0 <= i < |init| :: init[i] == os[i];
      NothingEdited(init);
    }
  }

  /** The edited files are exactly those that ended the `try` with a non-empty change list,
      whether or not they were then saved: they count one each. */
  lemma {:induction false} EditedCountExact(os: seq<FileOutcome>)
    ensures EditedCount(os) == |set i | 0 <= i < |os| && CountsEdited(os[i])|
  {
    if os != [] {
      var n := |os| - 1;
      var init := os[..n];
      EditedCountExact(init);
      var before := set i | 0 <= i < n && CountsEdited(init[i]);
      var now := set i | 0 <= i < |os| && CountsEdited(os[i]);
      assert before == set i | 0 <= i < n && CountsEdited(os[i]);
      if CountsEdited(os[n]) {
        assert now == before + {n};
      } else {
        assert now == before;
      }
    }
  }

  /** The errors are exactly the failed and unsaved files: they count one each. */
  lemma {:induction false} ErrorCountExact(os: seq<FileOutcome>)
    ensures ErrorCount(os) == |set i | 0 <= i < |os| && CountsError(os[i])|
  {
    if os != [] {
      var n := |os| - 1;
      var init := os[..n];
      ErrorCountExact(init);
      var before := set i | 0 <= i < n && CountsError(init[i]);
      var now := set i | 0 <= i < |os| && CountsError(os[i]);
      assert before == set i | 0 <= i < n && CountsError(os[i]);
      if CountsError(os[n]) {
        assert now == before + {n};
      } else {
        assert now == before;
      }
    }
  }

  /** The pass ends before editing anything exactly when re-keying is on and the key of some
      invoice summary cannot be derived. */
  lemma PassAbortsExactly(files: seq<XmlFile>, cfg: EditConfig, clock: nat -> TimeOfDay, unwritable: set<string>)
    ensures EditPassSpec(files, cfg, clock, unwritable).Failure? <==>
      Rekeying(cfg) && exists i | 0 <= i < |Infos(files)| :: NewKeyFor(Infos(files)[i], cfg).Failure?
  {
    var infos := Infos(files);
    PassFailsWithMaps(files, cfg, clock, unwritable);
    if Rekeying(cfg) {
      RekeyingFailsExactly(KeyMaps(map[], map[]), infos, NumberToKey(infos), cfg);
    } else {
      NoRekeyingNoKeys(KeyMaps(map[], map[]), infos, NumberToKey(infos), cfg);
    }
  }

  /** The pass fails exactly when building the key maps does. */
  lemma PassFailsWithMaps(files: seq<XmlFile>, cfg: EditConfig, clock: nat -> TimeOfDay, unwritable: set<string>)
    ensures EditPassSpec(files, cfg, clock, unwritable).Failure? <==> BuildKeyMapsSpec(Infos(files), cfg).Failure?
  {
  }

  /** One file with every switch off and nothing mapped: written back as parsed, with no change. */
  lemma FileUnchanged(f: XmlFile, maps: KeyMaps, cfg: EditConfig, now: TimeOfDay, unwritable: set<string>)
    requires cfg.alter == Toggles(false, false, false, false, false, false, false)
    requires maps.keys == map[]
    ensures var o := EditFileSpec(f, maps, cfg, now, unwritable);
      o.Done? ==> f.doc == Some(o.doc) && o.changes == []
  {
    if f.doc.Some? {
      var doc := f.doc.value;
      if !Contains(doc.rootTag, "procInutNFe") && !SkippedRoot(doc.rootTag) && doc.infNFe.Some? && doc.infNFe.value.id.Some? {
        AllOffChangesNothing(doc.infNFe.value, doc.protocol, maps, cfg, now);
      }
    }
  }

  /** With every switch off the pass cannot fail, changes no file and reports none as edited. */
  lemma AllOffPassChangesNothing(files: seq<XmlFile>, cfg: EditConfig, clock: nat -> TimeOfDay, unwritable: set<string>)
    requires cfg.alter == Toggles(false, false, false, false, false, false, false)
    ensures EditPassSpec(files, cfg, clock, unwritable).Success?
    ensures var r := EditPassSpec(files, cfg, clock, unwritable).value;
      && r.edited == 0
      && forall i | 0 <= i < |files| && r.outcomes[i].Done? :: files[i].doc == Some(r.outcomes[i].doc) && r.outcomes[i].changes == []
  {
    var infos := Infos(files);
    NoRekeyingNoKeys(KeyMaps(map[], map[]), infos, NumberToKey(infos), cfg);
    var maps := BuildKeyMapsSpec(infos, cfg).value;
    var os := Outcomes(files, maps, cfg, clock, unwritable);
    forall i | 0 <= i < |files|
      ensures os[i].Done? ==> files[i].doc == Some(os[i].doc) && os[i].changes == []
    {
      FileUnchanged(files[i], maps, cfg, clock(i), unwritable);
    }
    NothingEdited(os);
  }

  /** An `Id` the pass writes is "NFe" followed by a valid access key. */
  predicate RekeyedId(id: Option<string>)
  {
    id.Some? && |id.value| == 47 && id.value[..3] == "NFe" && ValidKey(id.value[3..])
  }

  /** One invoice file: its `Id` is either kept or replaced by a valid key, when every mapped key is valid. */
  lemma FileIdValid(f: XmlFile, maps: KeyMaps, cfg: EditConfig, now: TimeOfDay, unwritable: set<string>)
    requires forall k | k in maps.keys :: ValidKey(maps.keys[k])
    ensures var o := EditFileSpec(f, maps, cfg, now, unwritable);
      o.Done? && f.doc.value.infNFe.Some? && !Contains(f.doc.value.rootTag, "procInutNFe") ==>
        o.doc.infNFe.Some? && (o.doc.infNFe.value.id == f.doc.value.infNFe.value.id || RekeyedId(o.doc.infNFe.value.id))
  {
    var o := EditFileSpec(f, maps, cfg, now, unwritable);
    if o.Done? && f.doc.value.infNFe.Some? && !Contains(f.doc.value.rootTag, "procInutNFe") {
      var doc := f.doc.value;
      var inv := doc.infNFe.value;
      DoneInvoice(f, maps, cfg, now, unwritable);
      KeysRewritten(inv, doc.protocol, maps, cfg, now);
      var key := KeyOfId(inv.id.value);
      if key in maps.keys {
        RekeyedIdOf(maps.keys[key]);
      }
    }
  }

  lemma RekeyedIdOf(key: string)
    requires ValidKey(key)
    ensures RekeyedId(Some("NFe" + key))
  {
    var id := "NFe" + key;
    assert id[..3] == "NFe" && id[3..] == key;
  }

  /** An invoice file the pass edits holds the invoice its edit computes. */
  lemma DoneInvoice(f: XmlFile, maps: KeyMaps, cfg: EditConfig, now: TimeOfDay, unwritable: set<string>)
    requires EditFileSpec(f, maps, cfg, now, unwritable).Done?
    requires f.doc.value.infNFe.Some? && !Contains(f.doc.value.rootTag, "procInutNFe")
    ensures var doc := f.doc.value;
      var s := EditNFeSpec(doc.infNFe.value, doc.protocol, maps, cfg, now);
      s.Some? && EditFileSpec(f, maps, cfg, now, unwritable).doc.infNFe == Some(s.value.inv)
  {
  }

  /** Across the folder: every invoice the pass writes keeps its `Id` or carries "NFe" and a
      valid access key, since every key the first phase maps to is valid. */
  lemma RewrittenIdsValid(files: seq<XmlFile>, cfg: EditConfig, clock: nat -> TimeOfDay, unwritable: set<string>)
    requires EditPassSpec(files, cfg, clock, unwritable).Success?
    ensures var r := EditPassSpec(files, cfg, clock, unwritable).value;
      forall i | 0 <= i < |files| && r.outcomes[i].Done? && files[i].doc.Some? && files[i].doc.value.infNFe.Some? &&
                 !Contains(files[i].doc.value.rootTag, "procInutNFe") ::
        r.outcomes[i].doc.infNFe.Some? &&
        (r.outcomes[i].doc.infNFe.value.id == files[i].doc.value.infNFe.value.id || RekeyedId(r.outcomes[i].doc.infNFe.value.id))
  {
    var infos := Infos(files);
    var maps := BuildKeyMapsSpec(infos, cfg).value;
    KeyMapValid(KeyMaps(map[], map[]), infos, NumberToKey(infos), cfg, maps);
    forall i | 0 <= i < |files|
      ensures var o := EditFileSpec(files[i], maps, cfg, clock(i), unwritable);
        o.Done? && files[i].doc.value.infNFe.Some? && !Contains(files[i].doc.value.rootTag, "procInutNFe") ==>
          o.doc.infNFe.Some? && (o.doc.infNFe.value.id == files[i].doc.value.infNFe.value.id || RekeyedId(o.doc.infNFe.value.id))
    {
      FileIdValid(files[i], maps, cfg, clock(i), unwritable);
    }
  }
}
