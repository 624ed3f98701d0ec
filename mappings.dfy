/** The first phase of the edit pass (lines 255-270): before any file is touched, map every
    invoice key to its re-derived key (`chave_mapping`) and to the key of the invoice it
    references (`reference_map`). A failure here is raised outside the per-file `try`, so it
    ends the whole pass. */
module Mappings {
  import opened Wrappers
  import opened Text
  import opened CheckDigit
  import opened AccessKey
  import opened Config
  import opened Documents
  import opened FileInfo

  /** Why the edit pass stops before editing anything. */
  datatype SetupError =
    | KeyFailure(error: KeyError)  // `calcular_dv_chave` raised
    | MissingIssuer                // the issuer switch is on and `emitente` is missing
    | UnparsableDate               // `strptime` rejected `nova_data`

  /** `all_nfe_infos`: the summaries of the files that have one, in folder order. */
  function Infos(files: seq<XmlFile>): seq<NFeInfo>
  {
    if files == [] then []
    else (if GetXmlInfo(files[0]).Some? then [GetXmlInfo(files[0]).value] else []) + Infos(files[1..])
  }

  /** Every entry of `all_nfe_infos` is the summary of one of the folder's files. */
  lemma {:induction false} InfosFromFiles(files: seq<XmlFile>)
    ensures forall x | x in Infos(files) :: exists f | f in files :: GetXmlInfo(f) == Some(x)
  {
    if files != [] {
      InfosFromFiles(files[1..]);
      var rest := Infos(files[1..]);
      var head := if GetXmlInfo(files[0]).Some? then [GetXmlInfo(files[0]).value] else [];
      assert Infos(files) == head + rest;
      forall x | x in Infos(files) ensures exists f | f in files :: GetXmlInfo(f) == Some(x) {
        if x in rest {
          var f :| f in files[1..] && GetXmlInfo(f) == Some(x);
          assert f in files;
        } else {
          assert x in head && files[0] in files;
        }
      }
    }
  }

  /** `nNF_to_key_map`: each invoice number to the key of the last summary with that number. */
  function NumberToKey(infos: seq<NFeInfo>): map<string, string>
  {
    if infos == [] then map[]
    else NumberToKey(infos[..|infos| - 1])[infos[|infos| - 1].number := infos[|infos| - 1].key]
  }

  /** The key derivation is on when the issuer or the date switch is. */
  predicate Rekeying(cfg: EditConfig) { cfg.alter.issuer || cfg.alter.date }

  /** The CNPJ the new key carries: the configured one when the issuer switch is on and the
      configuration has one, else the invoice's own. */
  function NewCnpj(info: NFeInfo, cfg: EditConfig): Result<string, SetupError>
  {
    if !cfg.alter.issuer then Success(info.emitCnpj)
    else if cfg.issuer.None? then Failure(MissingIssuer)
    else Success(Lookup(cfg.issuer.value, "CNPJ").GetOr(info.emitCnpj))
  }

  /** The new year-month, when the date switch is on and a date is configured. */
  function NewYearMonth(cfg: EditConfig): Result<Option<string>, SetupError>
  {
    if !cfg.alter.date then Success(None)
    else match cfg.newDate
      case Unset => Success(None)
      case Unparsable => Failure(UnparsableDate)
      case Parsed(d) => Success(Some(YearMonth(d)))
  }

  /** `chave_mapping[original_key]` for one summary (lines 265-270). */
  function NewKeyFor(info: NFeInfo, cfg: EditConfig): Result<string, SetupError>
  {
    match NewCnpj(info, cfg)
    case Failure(e) => Failure(e)
    case Success(cnpj) =>
      match NewYearMonth(cfg)
      case Failure(e) => Failure(e)
      case Success(yymm) =>
        match DeriveKey(info.key, cnpj, yymm)
        case Failure(e) => Failure(KeyFailure(e))
        case Success(k) => Success(k)
  }

  datatype KeyMaps = KeyMaps(keys: map<string, string>, refs: map<string, string>)

  /** One turn of the loop of lines 259-270. */
  function MapStep(m: KeyMaps, info: NFeInfo, numberToKey: map<string, string>, cfg: EditConfig): Result<KeyMaps, SetupError>
  {
    var refs :=
      if HasReference(info.refNFe) && RefNumber(info.refNFe.value) in numberToKey then
        m.refs[info.key := numberToKey[RefNumber(info.refNFe.value)]]
      else m.refs;
    if !Rekeying(cfg) then Success(KeyMaps(m.keys, refs))
    else match NewKeyFor(info, cfg)
      case Failure(e) => Failure(e)
      case Success(k) => Success(KeyMaps(m.keys[info.key := k], refs))
  }

  function MapsFrom(m: KeyMaps, infos: seq<NFeInfo>, numberToKey: map<string, string>, cfg: EditConfig): Result<KeyMaps, SetupError>
    decreases |infos|
  {
    if infos == [] then Success(m)
    else match MapStep(m, infos[0], numberToKey, cfg)
      case Failure(e) => Failure(e)
      case Success(m') => MapsFrom(m', infos[1..], numberToKey, cfg)
  }

  /** Both maps of a batch of summaries. */
  function BuildKeyMapsSpec(infos: seq<NFeInfo>, cfg: EditConfig): Result<KeyMaps, SetupError>
  {
    MapsFrom(KeyMaps(map[], map[]), infos, NumberToKey(infos), cfg)
  }

  /** The loop of lines 259-270, with the check digit computed by `calcular_dv_chave`. */
  method BuildKeyMaps(infos: seq<NFeInfo>, cfg: EditConfig) returns (r: Result<KeyMaps, SetupError>)
    ensures r == BuildKeyMapsSpec(infos, cfg)
  {
    var numberToKey := NumberToKey(infos);
    var chaveMapping: map<string, string>, referenceMap: map<string, string> := map[], map[];
    var i := 0;
    while i < |infos|
      invariant 0 <= i <= |infos|
      invariant MapsFrom(KeyMaps(chaveMapping, referenceMap), infos[i..], numberToKey, cfg) == BuildKeyMapsSpec(infos, cfg)
    {
      var info := infos[i];
      ghost var before := KeyMaps(chaveMapping, referenceMap);
      MapsFromUnfold(before, infos, i, numberToKey, cfg);
      var originalKey := info.key;
      if HasReference(info.refNFe) {
        var referenced := RefNumber(info.refNFe.value);
        if referenced in numberToKey {
          referenceMap := referenceMap[originalKey := numberToKey[referenced]];
        }
      }
      if cfg.alter.issuer || cfg.alter.date {
        var k := DeriveNewKey(info, cfg);
        if k.Failure? {
          return Failure(k.error);
        }
        chaveMapping := chaveMapping[originalKey := k.value];
      }
      i := i + 1;
    }
    r := Success(KeyMaps(chaveMapping, referenceMap));
  }

  /** Lines 265-270 for one summary: the CNPJ and year-month to use, the 43-character prefix
      and its check digit computed by `calcular_dv_chave`. */
  method DeriveNewKey(info: NFeInfo, cfg: EditConfig) returns (r: Result<string, SetupError>)
    requires Rekeying(cfg)
    ensures r == NewKeyFor(info, cfg)
  {
    var originalKey := info.key;
    var novoCnpj := info.emitCnpj;
    if cfg.alter.issuer {
      if cfg.issuer.None? {
        return Failure(MissingIssuer);
      }
      novoCnpj := Lookup(cfg.issuer.value, "CNPJ").GetOr(info.emitCnpj);
    }
    var novoAnoMes := Slice(originalKey, 2, 6);
    if cfg.alter.date && !cfg.newDate.Unset? {
      if cfg.newDate.Unparsable? {
        return Failure(UnparsableDate);
      }
      novoAnoMes := YearMonth(cfg.newDate.date);
    }
    var semDv := Slice(originalKey, 0, 2) + novoAnoMes + ZFill(DigitsOnly(novoCnpj), CnpjWidth) + Slice(originalKey, 20, 43);
    assert semDv == NewKeyPrefix(originalKey, novoCnpj, NewYearMonth(cfg).value);
    var dv := CalcularDvChave(semDv);
    if dv.Failure? {
      return Failure(KeyFailure(dv.error));
    }
    r := Success(semDv + [dv.value]);
  }

  lemma MapsFromUnfold(m: KeyMaps, infos: seq<NFeInfo>, i: nat, numberToKey: map<string, string>, cfg: EditConfig)
    requires i < |infos|
    ensures MapsFrom(m, infos[i..], numberToKey, cfg) ==
      match MapStep(m, infos[i], numberToKey, cfg)
      case Failure(e) => Failure(e)
      case Success(m') => MapsFrom(m', infos[i + 1..], numberToKey, cfg)
  {
    assert infos[i..][0] == infos[i] && infos[i..][1..] == infos[i + 1..];
  }

  // ---------------------------------------------------------------- properties

  /** With both the issuer and the date switch off, the phase cannot fail and maps no key. */
  lemma {:induction false} NoRekeyingNoKeys(m: KeyMaps, infos: seq<NFeInfo>, numberToKey: map<string, string>, cfg: EditConfig)
    requires !Rekeying(cfg)
    ensures MapsFrom(m, infos, numberToKey, cfg).Success?
    ensures MapsFrom(m, infos, numberToKey, cfg).value.keys == m.keys
    decreases |infos|
  {
    if infos != [] {
      NoRekeyingNoKeys(MapStep(m, infos[0], numberToKey, cfg).value, infos[1..], numberToKey, cfg);
    }
  }

  /** With re-keying on, the phase fails exactly when the derivation fails for some summary. */
  lemma {:induction false} RekeyingFailsExactly(m: KeyMaps, infos: seq<NFeInfo>, numberToKey: map<string, string>, cfg: EditConfig)
    requires Rekeying(cfg)
    ensures MapsFrom(m, infos, numberToKey, cfg).Failure? <==>
      exists i | 0 <= i < |infos| :: NewKeyFor(infos[i], cfg).Failure?
    decreases |infos|
  {
    if infos != [] {
      var step := MapStep(m, infos[0], numberToKey, cfg);
      if step.Success? {
        RekeyingFailsExactly(step.value, infos[1..], numberToKey, cfg);
        if exists i | 0 <= i < |infos| :: NewKeyFor(infos[i], cfg).Failure? {
          var i :| 0 <= i < |infos| && NewKeyFor(infos[i], cfg).Failure?;
          assert i > 0 && NewKeyFor(infos[1..][i - 1], cfg).Failure?;
        }
        if exists i | 0 <= i < |infos[1..]| :: NewKeyFor(infos[1..][i], cfg).Failure? {
          var i :| 0 <= i < |infos[1..]| && NewKeyFor(infos[1..][i], cfg).Failure?;
          assert NewKeyFor(infos[i + 1], cfg).Failure?;
        }
      }
    }
  }

  /** The keys of the summaries. */
  function KeysOf(infos: seq<NFeInfo>): (ks: set<string>)
    ensures forall i | 0 <= i < |infos| :: infos[i].key in ks
    ensures forall k | k in ks :: exists i | 0 <= i < |infos| :: infos[i].key == k
  {
    if infos == [] then {}
    else
      var rest := KeysOf(infos[1..]);
      assert forall k | k in rest :: exists i | 0 <= i < |infos| :: infos[i].key == k by {
        forall k | k in rest ensures exists i | 0 <= i < |infos| :: infos[i].key == k {
          var i :| 0 <= i < |infos[1..]| && infos[1..][i].key == k;
          assert infos[i + 1].key == k;
        }
      }
      {infos[0].key} + rest
  }

  /** The last summary holding key `k`, read front to back. */
  function LastWithKey(infos: seq<NFeInfo>, k: string): (r: Option<NFeInfo>)
    ensures r.Some? <==> k in KeysOf(infos)
    ensures r.Some? ==> r.value.key == k
  {
    if infos == [] then None
    else
      var later := LastWithKey(infos[1..], k);
      if later.Some? then later else if infos[0].key == k then Some(infos[0]) else None
  }

  /** The entry `k: v` of `chave_mapping` holds the key derived from the last summary with key
      `k`, or, when no summary has that key, the entry already in `before`. */
  predicate DerivedOrKept(infos: seq<NFeInfo>, cfg: EditConfig, before: map<string, string>, k: string, v: string)
  {
    match LastWithKey(infos, k)
    case Some(info) => NewKeyFor(info, cfg) == Success(v)
    case None => k in before && v == before[k]
  }

  /** With re-keying on, `chave_mapping` gains exactly the keys of the summaries, each holding the
      key derived from the last summary with that key; other entries are untouched. */
  lemma {:induction false} KeyMapContents(m: KeyMaps, infos: seq<NFeInfo>, numberToKey: map<string, string>, cfg: EditConfig, r: KeyMaps)
    requires Rekeying(cfg)
    requires MapsFrom(m, infos, numberToKey, cfg) == Success(r)
    ensures r.keys.Keys == m.keys.Keys + KeysOf(infos)
    ensures forall k | k in r.keys :: DerivedOrKept(infos, cfg, m.keys, k, r.keys[k])
    decreases |infos|
  {
    if infos != [] {
      var m' := MapStep(m, infos[0], numberToKey, cfg).value;
      var tail := infos[1..];
      assert m'.keys == m.keys[infos[0].key := NewKeyFor(infos[0], cfg).value];
      KeyMapContents(m', tail, numberToKey, cfg, r);
      assert KeysOf(infos) == {infos[0].key} + KeysOf(tail);
      forall k | k in r.keys ensures DerivedOrKept(infos, cfg, m.keys, k, r.keys[k]) {
        assert DerivedOrKept(tail, cfg, m'.keys, k, r.keys[k]);
      }
    }
  }

  /** Every key of `chave_mapping`'s values is a valid access key. */
  lemma {:induction false} KeyMapValid(m: KeyMaps, infos: seq<NFeInfo>, numberToKey: map<string, string>, cfg: EditConfig, r: KeyMaps)
    requires MapsFrom(m, infos, numberToKey, cfg) == Success(r)
    requires forall k | k in m.keys :: ValidKey(m.keys[k])
    ensures forall k | k in r.keys :: ValidKey(r.keys[k])
    decreases |infos|
  {
    if infos != [] {
      var m' := MapStep(m, infos[0], numberToKey, cfg).value;
      StepKeepsValid(m, infos[0], numberToKey, cfg);
      KeyMapValid(m', infos[1..], numberToKey, cfg, r);
    }
  }

  /** One turn adds at most one entry to `chave_mapping`, and a valid one. */
  lemma StepKeepsValid(m: KeyMaps, info: NFeInfo, numberToKey: map<string, string>, cfg: EditConfig)
    requires MapStep(m, info, numberToKey, cfg).Success?
    requires forall k | k in m.keys :: ValidKey(m.keys[k])
    ensures var m' := MapStep(m, info, numberToKey, cfg).value;
      forall k | k in m'.keys :: ValidKey(m'.keys[k])
  {
    if Rekeying(cfg) {
      DeriveKeyValid(info.key, NewCnpj(info, cfg).value, NewYearMonth(cfg).value);
    }
  }

  /** The summary's reference is non-empty and names a number of the batch. */
  predicate RefersInBatch(info: NFeInfo, numberToKey: map<string, string>)
  {
    HasReference(info.refNFe) && RefNumber(info.refNFe.value) in numberToKey
  }

  /** The entry `k: v` of `reference_map` is the one written for `info`. */
  predicate RefEntryOf(info: NFeInfo, numberToKey: map<string, string>, k: string, v: string)
  {
    info.key == k && RefersInBatch(info, numberToKey) && v == numberToKey[RefNumber(info.refNFe.value)]
  }

  /** `reference_map` gains an entry for a summary exactly when its reference is non-empty and
      the number inside it is a number of the batch; the entry holds that number's key. */
  lemma ReferenceMapContents(m: KeyMaps, infos: seq<NFeInfo>, numberToKey: map<string, string>, cfg: EditConfig, r: KeyMaps)
    requires MapsFrom(m, infos, numberToKey, cfg) == Success(r)
    ensures forall i | 0 <= i < |infos| :: RefersInBatch(infos[i], numberToKey) ==> infos[i].key in r.refs
    ensures forall k | k in r.refs ::
      (k in m.refs && r.refs[k] == m.refs[k]) || exists i | 0 <= i < |infos| :: RefEntryOf(infos[i], numberToKey, k, r.refs[k])
    ensures forall i | 0 <= i < |infos| && LastRefWithKey(infos, i, numberToKey) ::
      infos[i].key in r.refs && r.refs[infos[i].key] == numberToKey[RefNumber(infos[i].refNFe.value)]
  {
    RefsCovered(m, infos, numberToKey, cfg, r);
    RefsExplained(m, infos, numberToKey, cfg, r);
    RefLastWins(m, infos, numberToKey, cfg, r);
  }

  /** `infos[i]` refers into the batch and no later summary with its key does. */
  predicate LastRefWithKey(infos: seq<NFeInfo>, i: nat, numberToKey: map<string, string>)
    requires i < |infos|
  {
    && RefersInBatch(infos[i], numberToKey)
    && forall j | i < j < |infos| :: !(infos[j].key == infos[i].key && RefersInBatch(infos[j], numberToKey))
  }

  /** When several summaries with one key refer into the batch, the last one's entry stays. */
  lemma {:induction false} RefLastWins(m: KeyMaps, infos: seq<NFeInfo>, numberToKey: map<string, string>, cfg: EditConfig, r: KeyMaps)
    requires MapsFrom(m, infos, numberToKey, cfg) == Success(r)
    ensures forall i | 0 <= i < |infos| && LastRefWithKey(infos, i, numberToKey) ::
      infos[i].key in r.refs && r.refs[infos[i].key] == numberToKey[RefNumber(infos[i].refNFe.value)]
    decreases |infos|
  {
    if infos != [] {
      var m' := MapStep(m, infos[0], numberToKey, cfg).value;
      RefLastWins(m', infos[1..], numberToKey, cfg, r);
      if LastRefWithKey(infos, 0, numberToKey) {
        LastRefHead(m, infos, numberToKey, cfg, r);
      }
      forall i | 1 <= i < |infos| && LastRefWithKey(infos, i, numberToKey)
        ensures LastRefWithKey(infos[1..], i - 1, numberToKey) && infos[1..][i - 1] == infos[i]
      {
        LastRefShift(infos, i, numberToKey);
      }
    }
  }

  /** The first summary, when no later one with its key refers into the batch, keeps its entry. */
  lemma LastRefHead(m: KeyMaps, infos: seq<NFeInfo>, numberToKey: map<string, string>, cfg: EditConfig, r: KeyMaps)
    requires MapsFrom(m, infos, numberToKey, cfg) == Success(r)
    requires infos != [] && LastRefWithKey(infos, 0, numberToKey)
    ensures infos[0].key in r.refs && r.refs[infos[0].key] == numberToKey[RefNumber(infos[0].refNFe.value)]
  {
    var m' := MapStep(m, infos[0], numberToKey, cfg).value;
    var tail := infos[1..];
    forall j | 0 <= j < |tail| ensures !(tail[j].key == infos[0].key && RefersInBatch(tail[j], numberToKey)) {
      assert tail[j] == infos[j + 1];
    }
    RefUntouched(m', tail, numberToKey, cfg, r, infos[0].key);
  }

  lemma LastRefShift(infos: seq<NFeInfo>, i: nat, numberToKey: map<string, string>)
    requires 1 <= i < |infos| && LastRefWithKey(infos, i, numberToKey)
    ensures LastRefWithKey(infos[1..], i - 1, numberToKey) && infos[1..][i - 1] == infos[i]
  {
    var tail := infos[1..];
    forall j | i - 1 < j < |tail| ensures !(tail[j].key == tail[i - 1].key && RefersInBatch(tail[j], numberToKey)) {
      assert tail[j] == infos[j + 1];
    }
  }

  /** An entry that no summary rewrites keeps its value. */
  lemma {:induction false} RefUntouched(m: KeyMaps, infos: seq<NFeInfo>, numberToKey: map<string, string>, cfg: EditConfig, r: KeyMaps, k: string)
    requires MapsFrom(m, infos, numberToKey, cfg) == Success(r) && k in m.refs
    requires forall j | 0 <= j < |infos| :: !(infos[j].key == k && RefersInBatch(infos[j], numberToKey))
    ensures k in r.refs && r.refs[k] == m.refs[k]
    decreases |infos|
  {
    if infos != [] {
      var m' := MapStep(m, infos[0], numberToKey, cfg).value;
      var tail := infos[1..];
      assert !(infos[0].key == k && RefersInBatch(infos[0], numberToKey));
      assert k in m'.refs && m'.refs[k] == m.refs[k];
      forall j | 0 <= j < |tail| ensures !(tail[j].key == k && RefersInBatch(tail[j], numberToKey)) {
        assert tail[j] == infos[j + 1];
      }
      RefUntouched(m', tail, numberToKey, cfg, r, k);
    }
  }

  /** Every summary referring into the batch has its entry. */
  lemma {:induction false} RefsCovered(m: KeyMaps, infos: seq<NFeInfo>, numberToKey: map<string, string>, cfg: EditConfig, r: KeyMaps)
    requires MapsFrom(m, infos, numberToKey, cfg) == Success(r)
    ensures forall i | 0 <= i < |infos| :: RefersInBatch(infos[i], numberToKey) ==> infos[i].key in r.refs
    decreases |infos|
  {
    if infos != [] {
      var m' := MapStep(m, infos[0], numberToKey, cfg).value;
      var tail := infos[1..];
      RefsCovered(m', tail, numberToKey, cfg, r);
      RefsOnlyGrow(m', tail, numberToKey, cfg, r);
      StepRecordsRef(m, infos[0], numberToKey, cfg);
      forall i | 0 <= i < |infos| && RefersInBatch(infos[i], numberToKey)
        ensures infos[i].key in r.refs
      {
        if i > 0 { assert infos[i] == tail[i - 1]; }
      }
    }
  }

  /** One turn records the reference of a summary referring into the batch. */
  lemma StepRecordsRef(m: KeyMaps, info: NFeInfo, numberToKey: map<string, string>, cfg: EditConfig)
    requires MapStep(m, info, numberToKey, cfg).Success?
    ensures RefersInBatch(info, numberToKey) ==> info.key in MapStep(m, info, numberToKey, cfg).value.refs
  {
  }

  /** Every entry is an old one or the one written for some summary. */
  lemma {:induction false} RefsExplained(m: KeyMaps, infos: seq<NFeInfo>, numberToKey: map<string, string>, cfg: EditConfig, r: KeyMaps)
    requires MapsFrom(m, infos, numberToKey, cfg) == Success(r)
    ensures forall k | k in r.refs ::
      (k in m.refs && r.refs[k] == m.refs[k]) || exists i | 0 <= i < |infos| :: RefEntryOf(infos[i], numberToKey, k, r.refs[k])
    decreases |infos|
  {
    if infos != [] {
      var m' := MapStep(m, infos[0], numberToKey, cfg).value;
      var tail := infos[1..];
      RefsExplained(m', tail, numberToKey, cfg, r);
      StepExplainsRefs(m, infos[0], numberToKey, cfg);
      forall k | k in r.refs
        ensures (k in m.refs && r.refs[k] == m.refs[k]) || exists i | 0 <= i < |infos| :: RefEntryOf(infos[i], numberToKey, k, r.refs[k])
      {
        if exists i | 0 <= i < |tail| :: RefEntryOf(tail[i], numberToKey, k, r.refs[k]) {
          var i :| 0 <= i < |tail| && RefEntryOf(tail[i], numberToKey, k, r.refs[k]);
          assert infos[i + 1] == tail[i];
        }
      }
    }
  }

  /** After one turn, every entry is an old one or the one written for the summary. */
  lemma StepExplainsRefs(m: KeyMaps, info: NFeInfo, numberToKey: map<string, string>, cfg: EditConfig)
    requires MapStep(m, info, numberToKey, cfg).Success?
    ensures var m' := MapStep(m, info, numberToKey, cfg).value;
      forall k | k in m'.refs :: (k in m.refs && m'.refs[k] == m.refs[k]) || RefEntryOf(info, numberToKey, k, m'.refs[k])
  {
  }

  lemma {:induction false} RefsOnlyGrow(m: KeyMaps, infos: seq<NFeInfo>, numberToKey: map<string, string>, cfg: EditConfig, r: KeyMaps)
    requires MapsFrom(m, infos, numberToKey, cfg) == Success(r)
    ensures m.refs.Keys <= r.refs.Keys
    decreases |infos|
  {
    if infos != [] {
      RefsOnlyGrow(MapStep(m, infos[0], numberToKey, cfg).value, infos[1..], numberToKey, cfg, r);
    }
  }

  /** The summary at `i` is the last with number `n`. */
  predicate LastWithNumberAt(infos: seq<NFeInfo>, i: nat, n: string)
  {
    i < |infos| && infos[i].number == n && forall j | i < j < |infos| :: infos[j].number != n
  }

  /** `nNF_to_key_map` holds exactly the numbers of the summaries, each with the key of the last
      summary with that number. */
  lemma NumberToKeyContents(infos: seq<NFeInfo>, n: string)
    ensures n in NumberToKey(infos) <==> exists i | 0 <= i < |infos| :: infos[i].number == n
    ensures n in NumberToKey(infos) ==> exists i | 0 <= i < |infos| && LastWithNumberAt(infos, i, n) :: NumberToKey(infos)[n] == infos[i].key
  {
    NumberToKeyDomain(infos, n);
    NumberToKeyLast(infos, n);
  }

  lemma {:induction false} NumberToKeyDomain(infos: seq<NFeInfo>, n: string)
    ensures n in NumberToKey(infos) <==> exists i | 0 <= i < |infos| :: infos[i].number == n
  {
    if infos != [] {
      var init := infos[..|infos| - 1];
      NumberToKeyDomain(init, n);
      if exists i | 0 <= i < |infos| :: infos[i].number == n {
        var i :| 0 <= i < |infos| && infos[i].number == n;
        if i < |init| { assert init[i].number == n; }
      }
      if exists i | 0 <= i < |init| :: init[i].number == n {
        var i :| 0 <= i < |init| && init[i].number == n;
        assert infos[i].number == n;
      }
    }
  }

  lemma {:induction false} NumberToKeyLast(infos: seq<NFeInfo>, n: string)
    ensures n in NumberToKey(infos) ==> exists i | 0 <= i < |infos| && LastWithNumberAt(infos, i, n) :: NumberToKey(infos)[n] == infos[i].key
  {
    if infos != [] {
      var last := |infos| - 1;
      var init := infos[..last];
      if infos[last].number == n {
        assert LastWithNumberAt(infos, last, n);
      } else if n in NumberToKey(init) {
        NumberToKeyLast(init, n);
        var i :| 0 <= i < |init| && LastWithNumberAt(init, i, n) && NumberToKey(init)[n] == init[i].key;
        assert infos[i] == init[i];
        forall j | i < j < |infos| ensures infos[j].number != n {
          if j < last { assert infos[j] == init[j]; }
        }
        assert LastWithNumberAt(infos, i, n);
      }
    }
  }

  /** The derived key of one summary, with the switches: for a valid 44-digit key and a
      configured CNPJ of at most 14 digits, derivation succeeds and gives a valid key that keeps
      the state code and the tail, carries the new year-month when the date switch is on and a
      date is set (the key's own otherwise), and the configured CNPJ when the issuer switch is on. */
  lemma NewKeyForLayout(info: NFeInfo, cfg: EditConfig)
    requires ValidKey(info.key)
    requires cfg.alter.issuer ==> cfg.issuer.Some?
    requires cfg.alter.date ==> !cfg.newDate.Unparsable?
    requires |DigitsOnly(NewCnpj(info, cfg).value)| <= CnpjWidth
    ensures var r := NewKeyFor(info, cfg);
      && r.Success?
      && ValidKey(r.value)
      && r.value[..2] == info.key[..2]
      && r.value[2..6] == (if cfg.alter.date && cfg.newDate.Parsed? then YearMonth(cfg.newDate.date) else info.key[2..6])
      && r.value[6..20] == ZFill(DigitsOnly(
           if cfg.alter.issuer then Lookup(cfg.issuer.value, "CNPJ").GetOr(info.emitCnpj) else info.emitCnpj), CnpjWidth)
      && r.value[20..43] == info.key[20..43]
  {
    DeriveKeyLayout(info.key, NewCnpj(info, cfg).value, NewYearMonth(cfg).value);
  }
}
