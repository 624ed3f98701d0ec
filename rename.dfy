/** The renaming pass (`processar_arquivos`): collect the invoice summaries by number and the
    cancellation events, rename every classified invoice and every cancellation of a known
    invoice, and never move a file onto a name that already exists. The folder is the set of
    names `os.path.exists` sees; `refused` are the sources the operating system fails to rename. */
module Rename {
  import opened Wrappers
  import opened Documents
  import opened FileInfo
  import opened Classification

  // ---------------------------------------------------------------- nfe_infos

  /** `nfe_infos.get(number)`. */
  function Get(d: seq<NFeInfo>, number: string): Option<NFeInfo>
  {
    if d == [] then None else if d[0].number == number then Some(d[0]) else Get(d[1..], number)
  }

  predicate DistinctNumbers(d: seq<NFeInfo>)
  {
    forall i, j | 0 <= i < j < |d| :: d[i].number != d[j].number
  }

  /** `nfe_infos[info['nfe_number']] = info`: a known number keeps its place and takes the new
      value, a new number goes at the end. */
  function Put(d: seq<NFeInfo>, info: NFeInfo): (r: seq<NFeInfo>)
    ensures Get(r, info.number) == Some(info)
    ensures forall n | n != info.number :: Get(r, n) == Get(d, n)
    ensures |r| == if Get(d, info.number).Some? then |d| else |d| + 1
    ensures forall x | x in r :: x in d || x == info
  {
    if d == [] then [info]
    else if d[0].number == info.number then [info] + d[1..]
    else [d[0]] + Put(d[1..], info)
  }

  /** Where the store puts the summary: a new number at the end, a known one in place of the
      first summary with that number, every other summary where it was. */
  lemma {:induction false} PutPlace(d: seq<NFeInfo>, info: NFeInfo)
    ensures Get(d, info.number).None? ==> Put(d, info) == d + [info]
    ensures Get(d, info.number).Some? ==> exists i | 0 <= i < |d| ::
      && d[i].number == info.number && (forall j | 0 <= j < i :: d[j].number != info.number)
      && Put(d, info) == d[..i] + [info] + d[i + 1..]
    decreases |d|
  {
    if d == [] {
    } else if d[0].number == info.number {
      assert Put(d, info) == d[..0] + [info] + d[0 + 1..];
    } else {
      var tail := d[1..];
      PutPlace(tail, info);
      if Get(d, info.number).Some? {
        var k :| 0 <= k < |tail| && tail[k].number == info.number
          && (forall j | 0 <= j < k :: tail[j].number != info.number)
          && Put(tail, info) == tail[..k] + [info] + tail[k + 1..];
        assert d[k + 1] == tail[k];
        forall j | 0 <= j < k + 1 ensures d[j].number != info.number {
          if j > 0 { assert d[j] == tail[j - 1]; }
        }
        ReplaceBehindHead(d, k, info);
      }
    }
  }

  lemma ReplaceBehindHead(d: seq<NFeInfo>, k: nat, info: NFeInfo)
    requires k + 1 < |d|
    ensures [d[0]] + (d[1..][..k] + [info] + d[1..][k + 1..]) == d[..k + 1] + [info] + d[k + 2..]
  {
    assert [d[0]] + d[1..][..k] == d[..k + 1];
    assert d[1..][k + 1..] == d[k + 2..];
  }

  /** A store keeps the numbers distinct. */
  lemma {:induction false} PutKeepsDistinct(d: seq<NFeInfo>, info: NFeInfo)
    requires DistinctNumbers(d)
    ensures DistinctNumbers(Put(d, info))
    decreases |d|
  {
    if d != [] {
      var tail := d[1..];
      assert DistinctNumbers(tail) by {
        forall i, j | 0 <= i < j < |tail| ensures tail[i].number != tail[j].number {
          assert tail[i] == d[i + 1] && tail[j] == d[j + 1];
        }
      }
      forall x | x in tail ensures x.number != d[0].number {
        var k :| 0 <= k < |tail| && tail[k] == x;
        assert d[k + 1] == x;
      }
      if d[0].number == info.number {
        ConsDistinct(info, tail);
      } else {
        PutKeepsDistinct(tail, info);
        ConsDistinct(d[0], Put(tail, info));
      }
    }
  }

  lemma ConsDistinct(a: NFeInfo, rest: seq<NFeInfo>)
    requires DistinctNumbers(rest) && forall x | x in rest :: x.number != a.number
    ensures DistinctNumbers([a] + rest)
  {
    var s := [a] + rest;
    forall i, j | 0 <= i < j < |s| ensures s[i].number != s[j].number {
      assert s[j] == rest[j - 1];
      if i > 0 { assert s[i] == rest[i - 1]; }
    }
  }

  /** What the scanning loop has gathered: `nfe_infos` in insertion order, and `eventos_info`. */
  datatype Scanned = Scanned(infos: seq<NFeInfo>, events: seq<EventInfo>)

  /** One file of the scanning loop: an invoice summary first, else a cancellation event. */
  function ScanStep(s: Scanned, f: XmlFile): Scanned
  {
    match GetXmlInfo(f)
    case Some(info) => s.(infos := Put(s.infos, info))
    case None =>
      match GetEventInfo(f)
      case Some(e) => s.(events := s.events + [e])
      case None => s
  }

  function ScanFrom(s: Scanned, files: seq<XmlFile>): Scanned
    decreases |files|
  {
    if files == [] then s else ScanFrom(ScanStep(s, files[0]), files[1..])
  }

  /** The scanning loop of lines 172-176. */
  method ScanFolder(files: seq<XmlFile>) returns (s: Scanned)
    ensures s == ScanFrom(Scanned([], []), files)
  {
    s := Scanned([], []);
    var i := 0;
    while i < |files|
      invariant 0 <= i <= |files|
      invariant ScanFrom(s, files[i..]) == ScanFrom(Scanned([], []), files)
    {
      assert files[i..][1..] == files[i + 1..];
      var info := GetXmlInfo(files[i]);
      if info.Some? {
        s := s.(infos := Put(s.infos, info.value));
      } else {
        var evento := GetEventInfo(files[i]);
        if evento.Some? {
          s := s.(events := s.events + [evento.value]);
        }
      }
      i := i + 1;
    }
  }

  /** The summary of the last file that has one with number `n`. */
  function LastWithNumber(files: seq<XmlFile>, n: string): Option<NFeInfo>
  {
    if files == [] then None
    else
      var later := LastWithNumber(files[1..], n);
      if later.Some? then later
      else if GetXmlInfo(files[0]).Some? && GetXmlInfo(files[0]).value.number == n then GetXmlInfo(files[0])
      else None
  }

  /** The cancellation events among `files`, in order. */
  function EventsOf(files: seq<XmlFile>): seq<EventInfo>
  {
    if files == [] then []
    else
      EventOf(files[0]) + EventsOf(files[1..])
  }

  /** The dictionary keyed by number keeps one summary per number, the last one read;
      the events are every cancellation event, in folder order. */
  lemma ScanContents(s: Scanned, files: seq<XmlFile>, n: string)
    requires DistinctNumbers(s.infos)
    ensures DistinctNumbers(ScanFrom(s, files).infos)
    ensures Get(ScanFrom(s, files).infos, n) ==
      if LastWithNumber(files, n).Some? then LastWithNumber(files, n) else Get(s.infos, n)
    ensures ScanFrom(s, files).events == s.events + EventsOf(files)
  {
    ScanKeepsDistinct(s, files);
    ScanGet(s, files, n);
    ScanEvents(s, files);
  }

  lemma {:induction false} ScanKeepsDistinct(s: Scanned, files: seq<XmlFile>)
    requires DistinctNumbers(s.infos)
    ensures DistinctNumbers(ScanFrom(s, files).infos)
    decreases |files|
  {
    if files != [] {
      if GetXmlInfo(files[0]).Some? {
        PutKeepsDistinct(s.infos, GetXmlInfo(files[0]).value);
      }
      ScanKeepsDistinct(ScanStep(s, files[0]), files[1..]);
    }
  }

  lemma {:induction false} ScanGet(s: Scanned, files: seq<XmlFile>, n: string)
    ensures Get(ScanFrom(s, files).infos, n) ==
      if LastWithNumber(files, n).Some? then LastWithNumber(files, n) else Get(s.infos, n)
    decreases |files|
  {
    if files != [] {
      ScanGet(ScanStep(s, files[0]), files[1..], n);
    }
  }

  lemma {:induction false} ScanEvents(s: Scanned, files: seq<XmlFile>)
    ensures ScanFrom(s, files).events == s.events + EventsOf(files)
    decreases |files|
  {
    if files != [] {
      var s' := ScanStep(s, files[0]);
      var head := EventOf(files[0]);
      StepEvents(s, files[0]);
      ScanEvents(s', files[1..]);
      assert EventsOf(files) == head + EventsOf(files[1..]);
      assert (s.events + head) + EventsOf(files[1..]) == s.events + (head + EventsOf(files[1..]));
    }
  }

  /** The event one file contributes, if any. */
  function EventOf(f: XmlFile): seq<EventInfo>
  {
    if GetXmlInfo(f).None? && GetEventInfo(f).Some? then [GetEventInfo(f).value] else []
  }

  lemma StepEvents(s: Scanned, f: XmlFile)
    ensures ScanStep(s, f).events == s.events + EventOf(f)
  {
  }

  // ---------------------------------------------------------------- the order of nfe_infos

  /** The summary `get_xml_info` reads from each file of the folder, in the folder's order. */
  function Summaries(files: seq<XmlFile>): (r: seq<Option<NFeInfo>>)
    ensures |r| == |files|
  {
    seq(|files|, i requires 0 <= i < |files| => GetXmlInfo(files[i]))
  }

  predicate HasNumber(sum: Option<NFeInfo>, n: string)
  {
    sum.Some? && sum.value.number == n
  }

  /** The position of the first summary with number `n`; `|sums|` when none has it. */
  function FirstWithNumber(sums: seq<Option<NFeInfo>>, n: string): (k: nat)
    ensures k <= |sums|
    decreases |sums|
  {
    if sums == [] then 0
    else
      var k := FirstWithNumber(sums[..|sums| - 1], n);
      if k < |sums| - 1 then k else if HasNumber(sums[|sums| - 1], n) then |sums| - 1 else |sums|
  }

  /** `FirstWithNumber` finds the first summary with the number, and `|sums|` only when none has it. */
  lemma {:induction false} FirstWithNumberMeaning(sums: seq<Option<NFeInfo>>, n: string)
    ensures var k := FirstWithNumber(sums, n);
      && (k < |sums| ==> HasNumber(sums[k], n))
      && (forall j | 0 <= j < k :: !HasNumber(sums[j], n))
    decreases |sums|
  {
    if sums != [] {
      var init := sums[..|sums| - 1];
      FirstWithNumberMeaning(init, n);
      assert forall j | 0 <= j < |init| :: init[j] == sums[j];
    }
  }

  /** The summary at `k` is the first with the number. */
  lemma FirstWithNumberAt(sums: seq<Option<NFeInfo>>, n: string, k: nat)
    requires k < |sums| && HasNumber(sums[k], n)
    requires forall j | 0 <= j < k :: !HasNumber(sums[j], n)
    ensures FirstWithNumber(sums, n) == k
  {
    FirstWithNumberMeaning(sums, n);
  }

  /** Every summary stored has a number found among `sums`, and they are stored in the order
      in which their numbers first appear. */
  predicate OrderedByFirst(d: seq<NFeInfo>, sums: seq<Option<NFeInfo>>)
  {
    && (forall a | 0 <= a < |d| :: FirstWithNumber(sums, d[a].number) < |sums|)
    && (forall a, b | 0 <= a < b < |d| :: FirstWithNumber(sums, d[a].number) < FirstWithNumber(sums, d[b].number))
  }

  /** `nfe_infos` holds its summaries in the order of each number's first appearance in the
      folder, the order in which `nfe_infos.items()` hands them to the renaming loop. */
  lemma {:induction false} ScanOrder(files: seq<XmlFile>)
    ensures OrderedByFirst(ScanFrom(Scanned([], []), files).infos, Summaries(files))
    decreases |files|
  {
    if files != [] {
      var init := files[..|files| - 1];
      var f := files[|files| - 1];
      var sums := Summaries(files);
      var d0 := ScanFrom(Scanned([], []), init).infos;
      ScanOrder(init);
      assert Summaries(init) == sums[..|files| - 1];
      ScanSnoc(Scanned([], []), files);
      OrderedExtends(d0, sums);
      match GetXmlInfo(f)
      case None =>
      case Some(info) =>
        if Get(d0, info.number).None? {
          ScanGet(Scanned([], []), init, info.number);
          LastWithNumberNone(init, info.number);
          forall j | 0 <= j < |init| ensures !HasNumber(sums[j], info.number) {
            assert sums[j] == GetXmlInfo(init[j]);
          }
        }
        OrderedPut(d0, info, sums);
    }
  }

  /** Storing the last file's summary keeps the order. */
  lemma OrderedPut(d: seq<NFeInfo>, info: NFeInfo, sums: seq<Option<NFeInfo>>)
    requires sums != [] && sums[|sums| - 1] == Some(info) && OrderedByFirst(d, sums)
    requires forall a | 0 <= a < |d| :: FirstWithNumber(sums, d[a].number) < |sums| - 1
    requires Get(d, info.number).None? ==> forall j | 0 <= j < |sums| - 1 :: !HasNumber(sums[j], info.number)
    ensures OrderedByFirst(Put(d, info), sums)
  {
    PutPlace(d, info);
    if Get(d, info.number).None? {
      FirstWithNumberAt(sums, info.number, |sums| - 1);
      OrderedAppend(d, info, sums);
    } else {
      var i :| 0 <= i < |d| && d[i].number == info.number && Put(d, info) == d[..i] + [info] + d[i + 1..];
      OrderedReplace(d, i, info, sums);
    }
  }

  lemma {:induction false} ScanSnoc(s: Scanned, files: seq<XmlFile>)
    requires files != []
    ensures ScanFrom(s, files) == ScanStep(ScanFrom(s, files[..|files| - 1]), files[|files| - 1])
    decreases |files|
  {
    if |files| == 1 {
      assert files[1..] == [] && files[..0] == [];
    } else {
      var t := files[1..];
      ScanSnoc(ScanStep(s, files[0]), t);
      var init := files[..|files| - 1];
      assert init[0] == files[0] && init[1..] == t[..|t| - 1];
      assert t[|t| - 1] == files[|files| - 1];
    }
  }

  /** No last summary with number `n` means no summary with it at all. */
  lemma {:induction false} LastWithNumberNone(files: seq<XmlFile>, n: string)
    ensures LastWithNumber(files, n).None? ==> forall i | 0 <= i < |files| :: !HasNumber(GetXmlInfo(files[i]), n)
    decreases |files|
  {
    if files != [] {
      LastWithNumberNone(files[1..], n);
      if LastWithNumber(files, n).None? {
        forall i | 0 <= i < |files| ensures !HasNumber(GetXmlInfo(files[i]), n) {
          if i > 0 { assert files[i] == files[1..][i - 1]; }
        }
      }
    }
  }

  /** One more file keeps the order of what was stored before it. */
  lemma OrderedExtends(d: seq<NFeInfo>, sums: seq<Option<NFeInfo>>)
    requires sums != [] && OrderedByFirst(d, sums[..|sums| - 1])
    ensures OrderedByFirst(d, sums)
    ensures forall a | 0 <= a < |d| :: FirstWithNumber(sums, d[a].number) < |sums| - 1
  {
    var init := sums[..|sums| - 1];
    forall a | 0 <= a < |d| ensures FirstWithNumber(sums, d[a].number) == FirstWithNumber(init, d[a].number) {
    }
  }

  /** A number first seen in the last file goes at the end. */
  lemma OrderedAppend(d: seq<NFeInfo>, info: NFeInfo, sums: seq<Option<NFeInfo>>)
    requires sums != [] && OrderedByFirst(d, sums)
    requires forall a | 0 <= a < |d| :: FirstWithNumber(sums, d[a].number) < |sums| - 1
    requires FirstWithNumber(sums, info.number) == |sums| - 1
    ensures OrderedByFirst(d + [info], sums)
  {
    var r := d + [info];
    forall a | 0 <= a < |r| ensures FirstWithNumber(sums, r[a].number) < |sums| {
      if a < |d| { assert r[a] == d[a]; } else { assert r[a] == info; }
    }
    forall a, b | 0 <= a < b < |r| ensures FirstWithNumber(sums, r[a].number) < FirstWithNumber(sums, r[b].number) {
      assert r[a] == d[a];
      if b < |d| { assert r[b] == d[b]; } else { assert r[b] == info; }
    }
  }

  /** A known number keeps its place. */
  lemma OrderedReplace(d: seq<NFeInfo>, i: nat, info: NFeInfo, sums: seq<Option<NFeInfo>>)
    requires i < |d| && d[i].number == info.number && OrderedByFirst(d, sums)
    ensures OrderedByFirst(d[..i] + [info] + d[i + 1..], sums)
  {
    var r := d[..i] + [info] + d[i + 1..];
    assert forall a | 0 <= a < |r| :: r[a].number == d[a].number;
  }

  // ---------------------------------------------------------------- planning the renames

  /** One rename the pass attempts; a skip is counted only for invoices. */
  datatype Request = Request(source: string, target: string, countSkip: bool)

  datatype Counters = Counters(renamed: nat, skipped: nat, errors: nat)

  /** The names in the folder and the counters of the summary line. */
  datatype RenameState = RenameState(names: set<string>, counters: Counters)

  /** One rename: nothing for an empty target; a move only when the target is absent (an error
      when the source is gone or the system refuses); a skip when the target exists and is not
      the file's own name. */
  function Step(st: RenameState, r: Request, refused: set<string>): RenameState
  {
    var c := st.counters;
    if r.target == "" then st
    else if r.target !in st.names then
      if r.source in st.names && r.source !in refused then
        RenameState(st.names - {r.source} + {r.target}, c.(renamed := c.renamed + 1))
      else
        st.(counters := c.(errors := c.errors + 1))
    else if r.source != r.target && r.countSkip then
      st.(counters := c.(skipped := c.skipped + 1))
    else st
  }

  function RenameAll(st: RenameState, reqs: seq<Request>, refused: set<string>): RenameState
    decreases |reqs|
  {
    if reqs == [] then st else RenameAll(Step(st, reqs[0], refused), reqs[1..], refused)
  }

  lemma RenameAllUnfold(st: RenameState, reqs: seq<Request>, i: nat, refused: set<string>)
    requires i < |reqs|
    ensures RenameAll(st, reqs[i..], refused) == RenameAll(Step(st, reqs[i], refused), reqs[i + 1..], refused)
  {
    assert reqs[i..][0] == reqs[i] && reqs[i..][1..] == reqs[i + 1..];
  }

  /** One request per entry of `nfe_infos`, to the name the classification gives. */
  function InfoRequests(infos: seq<NFeInfo>): (rs: seq<Request>)
    ensures |rs| == |infos|
    ensures forall i | 0 <= i < |infos| :: rs[i] == Request(infos[i].name, NewName(infos[i]), true)
  {
    if infos == [] then [] else [Request(infos[0].name, NewName(infos[0]), true)] + InfoRequests(infos[1..])
  }

  /** `chave_to_nfe_map`: each key to the number of the last summary holding it. */
  function KeyToNumber(infos: seq<NFeInfo>): map<string, string>
  {
    if infos == [] then map[]
    else KeyToNumber(infos[..|infos| - 1])[infos[|infos| - 1].key := infos[|infos| - 1].number]
  }

  /** `f"CAN-{n}.xml"`. */
  function CancellationName(number: string): string { "CAN-" + number + ".xml" }

  /** The request for one cancellation: none unless its key names a known invoice with a
      non-empty number. */
  function EventRequest(e: EventInfo, keyToNumber: map<string, string>): seq<Request>
  {
    if e.cancelledKey in keyToNumber && keyToNumber[e.cancelledKey] != "" then
      [Request(e.name, CancellationName(keyToNumber[e.cancelledKey]), false)]
    else []
  }

  function EventRequests(events: seq<EventInfo>, keyToNumber: map<string, string>): seq<Request>
  {
    if events == [] then [] else EventRequest(events[0], keyToNumber) + EventRequests(events[1..], keyToNumber)
  }

  /** What the whole pass does to the folder and the counters. */
  function ProcessFolderSpec(files: seq<XmlFile>, names: set<string>, refused: set<string>): RenameState
  {
    var s := ScanFrom(Scanned([], []), files);
    var afterInvoices := RenameAll(RenameState(names, Counters(0, 0, 0)), InfoRequests(s.infos), refused);
    RenameAll(afterInvoices, EventRequests(s.events, KeyToNumber(s.infos)), refused)
  }

  /** `processar_arquivos` over the `.xml` files of the folder, in listing order. */
  method ProcessFolder(files: seq<XmlFile>, names: set<string>, refused: set<string>) returns (st: RenameState)
    ensures st == ProcessFolderSpec(files, names, refused)
  {
    var scanned := ScanFolder(files);
    st := RenameInvoices(scanned.infos, RenameState(names, Counters(0, 0, 0)), refused);
    var keyToNumber := KeyToNumber(scanned.infos);
    st := RenameEvents(scanned.events, keyToNumber, st, refused);
  }

  /** The loop of lines 178-208 over `nfe_infos`. */
  method RenameInvoices(infos: seq<NFeInfo>, st0: RenameState, refused: set<string>) returns (st: RenameState)
    ensures st == RenameAll(st0, InfoRequests(infos), refused)
  {
    st := st0;
    ghost var reqs := InfoRequests(infos);
    var i := 0;
    while i < |infos|
      invariant 0 <= i <= |infos|
      invariant RenameAll(st, reqs[i..], refused) == RenameAll(st0, reqs, refused)
    {
      var info := infos[i];
      var novoNome := NewName(info);
      assert reqs[i] == Request(info.name, novoNome, true);
      RenameAllUnfold(st, reqs, i, refused);
      st := TryRename(st, Request(info.name, novoNome, true), refused);
      i := i + 1;
    }
  }

  /** One rename attempt: nothing for an empty target; `os.rename` only when the target is
      absent, counted as an error when it raises; a counted skip when the target exists and is
      not the file's own name. */
  method TryRename(st: RenameState, r: Request, refused: set<string>) returns (st': RenameState)
    ensures st' == Step(st, r, refused)
  {
    st' := st;
    if r.target != "" {
      if r.target !in st.names {
        if r.source in st.names && r.source !in refused {
          st' := RenameState(st.names - {r.source} + {r.target}, st.counters.(renamed := st.counters.renamed + 1));
        } else {
          st' := st.(counters := st.counters.(errors := st.counters.errors + 1));
        }
      } else if r.source != r.target && r.countSkip {
        st' := st.(counters := st.counters.(skipped := st.counters.skipped + 1));
      }
    }
  }

  /** The loop of lines 211-224 over `eventos_info`. */
  method RenameEvents(events: seq<EventInfo>, keyToNumber: map<string, string>, st0: RenameState, refused: set<string>)
    returns (st: RenameState)
    ensures st == RenameAll(st0, EventRequests(events, keyToNumber), refused)
  {
    st := st0;
    var j := 0;
    while j < |events|
      invariant 0 <= j <= |events|
      invariant RenameAll(st, EventRequests(events[j..], keyToNumber), refused)
             == RenameAll(st0, EventRequests(events, keyToNumber), refused)
    {
      assert events[j..][0] == events[j] && events[j..][1..] == events[j + 1..];
      var evento := events[j];
      if evento.cancelledKey in keyToNumber && keyToNumber[evento.cancelledKey] != "" {
        var novoNome := CancellationName(keyToNumber[evento.cancelledKey]);
        var r := Request(evento.name, novoNome, false);
        assert EventRequests(events[j..], keyToNumber) == [r] + EventRequests(events[j + 1..], keyToNumber);
        assert ([r] + EventRequests(events[j + 1..], keyToNumber))[1..] == EventRequests(events[j + 1..], keyToNumber);
        st := TryRename(st, r, refused);
      } else {
        assert EventRequests(events[j..], keyToNumber) == EventRequests(events[j + 1..], keyToNumber);
      }
      j := j + 1;
    }
  }

  // ---------------------------------------------------------------- properties

  /** No file is ever overwritten: every rename moves a file onto a name that was absent, so the
      folder keeps as many names as it had; a name disappears only as the source of a request,
      and a new name appears only as a target; each request moves at most one counter by one. */
  lemma {:induction false} RenameNeverOverwrites(st: RenameState, reqs: seq<Request>, refused: set<string>)
    ensures var r := RenameAll(st, reqs, refused);
      && |r.names| == |st.names|
      && (forall x | x in st.names && x !in r.names :: exists k | 0 <= k < |reqs| :: reqs[k].source == x)
      && (forall x | x in r.names && x !in st.names :: exists k | 0 <= k < |reqs| :: reqs[k].target == x)
      && r.counters.renamed + r.counters.skipped + r.counters.errors
         <= st.counters.renamed + st.counters.skipped + st.counters.errors + |reqs|
    decreases |reqs|
  {
    if reqs != [] {
      var st' := Step(st, reqs[0], refused);
      StepKeepsCount(st, reqs[0], refused);
      RenameNeverOverwrites(st', reqs[1..], refused);
      var r := RenameAll(st, reqs, refused);
      forall x | x in st.names && x !in r.names
        ensures exists k | 0 <= k < |reqs| :: reqs[k].source == x
      {
        if x in st'.names {
          var k :| 0 <= k < |reqs[1..]| && reqs[1..][k].source == x;
          assert reqs[k + 1].source == x;
        } else {
          assert reqs[0].source == x;
        }
      }
      forall x | x in r.names && x !in st.names
        ensures exists k | 0 <= k < |reqs| :: reqs[k].target == x
      {
        if x !in st'.names {
          var k :| 0 <= k < |reqs[1..]| && reqs[1..][k].target == x;
          assert reqs[k + 1].target == x;
        } else {
          assert reqs[0].target == x;
        }
      }
    }
  }

  lemma StepKeepsCount(st: RenameState, r: Request, refused: set<string>)
    ensures var s := Step(st, r, refused);
      && |s.names| == |st.names|
      && (forall x | x in st.names && x !in s.names :: x == r.source)
      && (forall x | x in s.names && x !in st.names :: x == r.target)
      && s.counters.renamed + s.counters.skipped + s.counters.errors
         <= st.counters.renamed + st.counters.skipped + st.counters.errors + 1
  {
    if r.target != "" && r.target !in st.names && r.source in st.names && r.source !in refused {
      assert |st.names - {r.source}| == |st.names| - 1;
      assert r.target !in st.names - {r.source};
    }
  }

  /** A file whose name the classification already gives it is left alone and not counted;
      a file whose target name is taken by another file is left alone and counted as skipped. */
  lemma InvoiceAtTarget(st: RenameState, info: NFeInfo, refused: set<string>)
    requires NewName(info) != "" && NewName(info) in st.names
    ensures var s := Step(st, Request(info.name, NewName(info), true), refused);
      && s.names == st.names
      && s.counters == if info.name == NewName(info) then st.counters
                       else st.counters.(skipped := st.counters.skipped + 1)
  {
  }

  /** The summary at `i` is the last with key `k`. */
  predicate LastWithKeyAt(infos: seq<NFeInfo>, i: nat, k: string)
  {
    i < |infos| && infos[i].key == k && forall j | i < j < |infos| :: infos[j].key != k
  }

  /** `chave_to_nfe_map` holds exactly the keys of the summaries, each with the number of the
      last summary holding it. */
  lemma KeyToNumberContents(infos: seq<NFeInfo>, k: string)
    ensures k in KeyToNumber(infos) <==> exists i | 0 <= i < |infos| :: infos[i].key == k
    ensures k in KeyToNumber(infos) ==> exists i | 0 <= i < |infos| && LastWithKeyAt(infos, i, k) :: KeyToNumber(infos)[k] == infos[i].number
  {
    KeyToNumberDomain(infos, k);
    KeyToNumberLast(infos, k);
  }

  lemma {:induction false} KeyToNumberDomain(infos: seq<NFeInfo>, k: string)
    ensures k in KeyToNumber(infos) <==> exists i | 0 <= i < |infos| :: infos[i].key == k
  {
    if infos != [] {
      var init := infos[..|infos| - 1];
      KeyToNumberDomain(init, k);
      if exists i | 0 <= i < |infos| :: infos[i].key == k {
        var i :| 0 <= i < |infos| && infos[i].key == k;
        if i < |init| { assert init[i].key == k; }
      }
      if exists i | 0 <= i < |init| :: init[i].key == k {
        var i :| 0 <= i < |init| && init[i].key == k;
        assert infos[i].key == k;
      }
    }
  }

  lemma {:induction false} KeyToNumberLast(infos: seq<NFeInfo>, k: string)
    ensures k in KeyToNumber(infos) ==> exists i | 0 <= i < |infos| && LastWithKeyAt(infos, i, k) :: KeyToNumber(infos)[k] == infos[i].number
  {
    if infos != [] {
      var last := |infos| - 1;
      var init := infos[..last];
      if infos[last].key == k {
        assert LastWithKeyAt(infos, last, k);
      } else if k in KeyToNumber(init) {
        KeyToNumberLast(init, k);
        var i :| 0 <= i < |init| && LastWithKeyAt(init, i, k) && KeyToNumber(init)[k] == init[i].number;
        assert infos[i] == init[i];
        forall j | i < j < |infos| ensures infos[j].key != k {
          if j < last { assert infos[j] == init[j]; }
        }
        assert LastWithKeyAt(infos, i, k);
      }
    }
  }

  /** A cancellation event is renamed `CAN-{n}.xml` exactly when its cancelled key is the key of
      a known invoice whose number `n` is not empty. */
  lemma {:induction false} EventRequestsExact(events: seq<EventInfo>, m: map<string, string>, r: Request)
    ensures r in EventRequests(events, m) <==>
      exists e | e in events :: e.cancelledKey in m && m[e.cancelledKey] != "" &&
        r == Request(e.name, CancellationName(m[e.cancelledKey]), false)
  {
    if events != [] {
      EventRequestsExact(events[1..], m, r);
      assert forall e | e in events :: e == events[0] || e in events[1..];
    }
  }
}
