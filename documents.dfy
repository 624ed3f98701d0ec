/** The parts of a parsed XML file that the two passes read or write, and the
    "first matching element" lookups the script performs on them. An element with no
    text is held with the empty string as its text. */
module Documents {
  import opened Wrappers
  import opened Text

  /** A child element of a group (`prod`, `emit`, `enderEmit`, `ide`, `ICMSTot`, `infProt`). */
  datatype Field = Field(tag: string, text: string)

  /** An element below an item's `imposto`: the tags from `imposto` down to it, and its text.
      Only leaves are held, and the path does not record which of two same-tag groups the leaf
      lies in. */
  datatype Leaf = Leaf(path: seq<string>, text: string)

  /** `ide`, with the first `NFref/refNFe` below it. */
  datatype Ide = Ide(fields: seq<Field>, refNFe: Option<string>)

  /** `emit`, with its `enderEmit` group when present. */
  datatype Issuer = Issuer(fields: seq<Field>, address: Option<seq<Field>>)

  /** One `det`: its `prod` and `imposto` groups, when present. */
  datatype Item = Item(prod: Option<seq<Field>>, imposto: Option<seq<Leaf>>)

  /** `infNFe`: its `Id` attribute, `ide`, `emit`, the `det` items in order, the first
      `infAdic/obsCont/xTexto`, and `total/ICMSTot`. */
  datatype Invoice = Invoice(
    id: Option<string>,
    ide: Option<Ide>,
    emit: Option<Issuer>,
    items: seq<Item>,
    xTexto: Option<string>,
    totals: Option<seq<Field>>)

  /** The three elements of a number-voiding file (`procInutNFe`) the edit pass rewrites. */
  datatype Voiding = Voiding(cnpj: Option<string>, year: Option<string>, received: Option<string>)

  /** A parsed file: the root tag, the first `infNFe`, the first `protNFe/infProt`, the
      event type and cancelled key of an event file, and the voiding elements. */
  datatype Document = Document(
    rootTag: string,
    infNFe: Option<Invoice>,
    protocol: Option<seq<Field>>,
    eventType: Option<string>,
    eventKey: Option<string>,
    voiding: Voiding)

  /** A `.xml` file of the folder; `doc` is `None` when it does not parse. */
  datatype XmlFile = XmlFile(name: string, doc: Option<Document>)

  /** `find_element(group, tag)`: the index of the first child with that tag. */
  function Find(fields: seq<Field>, tag: string): (r: Option<nat>)
    ensures r.Some? ==> r.value < |fields| && fields[r.value].tag == tag
    ensures r.Some? ==> forall j | 0 <= j < r.value :: fields[j].tag != tag
    ensures r.None? ==> forall j | 0 <= j < |fields| :: fields[j].tag != tag
  {
    if fields == [] then None
    else if fields[0].tag == tag then Some(0)
    else match Find(fields[1..], tag)
      case None => None
      case Some(i) => Some(i + 1)
  }

  /** `find_element(group, tag).text`, `None` when there is no such child. */
  function TextOf(fields: seq<Field>, tag: string): Option<string>
  {
    match Find(fields, tag)
    case None => None
    case Some(i) => Some(fields[i].text)
  }

  /** `find_element(group, tag).text = text`, on the first child with that tag only. */
  function SetText(fields: seq<Field>, tag: string, text: string): (r: seq<Field>)
    ensures |r| == |fields|
    ensures forall j | 0 <= j < |r| :: r[j].tag == fields[j].tag
    ensures TextOf(fields, tag).Some? ==> TextOf(r, tag) == Some(text)
    ensures TextOf(fields, tag).None? ==> r == fields
    ensures forall t | t != tag :: TextOf(r, t) == TextOf(fields, t)
  {
    match Find(fields, tag)
    case None => fields
    case Some(i) =>
      var r := fields[i := Field(tag, text)];
      assert forall j | 0 <= j < |r| :: r[j].tag == fields[j].tag;
      assert forall t | t != tag :: Find(r, t) == Find(fields, t) by {
        forall t | t != tag ensures Find(r, t) == Find(fields, t) {
          SameTagsSameFind(r, fields, t);
        }
      }
      r
  }

  lemma SameTagsSameFind(a: seq<Field>, b: seq<Field>, t: string)
    requires |a| == |b| && forall j | 0 <= j < |a| :: a[j].tag == b[j].tag
    ensures Find(a, t) == Find(b, t)
  {
  }

  /** The path of an element found by `find_element_deep` inside the group `prefix`:
      the group, then any tags, then the searched `suffix`. */
  predicate Matches(path: seq<string>, prefix: seq<string>, suffix: seq<string>)
  {
    |prefix| + |suffix| <= |path| && path[..|prefix|] == prefix && path[|path| - |suffix|..] == suffix
  }

  /** The first leaf (in document order) matching `prefix` and `suffix`. */
  function FindLeaf(leaves: seq<Leaf>, prefix: seq<string>, suffix: seq<string>): (r: Option<nat>)
    ensures r.Some? ==> r.value < |leaves| && Matches(leaves[r.value].path, prefix, suffix)
    ensures r.Some? ==> forall j | 0 <= j < r.value :: !Matches(leaves[j].path, prefix, suffix)
    ensures r.None? ==> forall j | 0 <= j < |leaves| :: !Matches(leaves[j].path, prefix, suffix)
  {
    if leaves == [] then None
    else if Matches(leaves[0].path, prefix, suffix) then Some(0)
    else match FindLeaf(leaves[1..], prefix, suffix)
      case None => None
      case Some(i) => Some(i + 1)
  }

  /** The text of the first leaf matching `prefix` and `suffix`. */
  function LeafText(leaves: seq<Leaf>, prefix: seq<string>, suffix: seq<string>): Option<string>
  {
    match FindLeaf(leaves, prefix, suffix)
    case None => None
    case Some(i) => Some(leaves[i].text)
  }

  /** Sets the text of the first leaf matching `prefix` and `suffix`, if any. */
  function SetLeafText(leaves: seq<Leaf>, prefix: seq<string>, suffix: seq<string>, text: string): (r: seq<Leaf>)
    ensures |r| == |leaves|
    ensures forall j | 0 <= j < |r| :: r[j].path == leaves[j].path
    ensures LeafText(leaves, prefix, suffix).Some? ==> LeafText(r, prefix, suffix) == Some(text)
    ensures LeafText(leaves, prefix, suffix).None? ==> r == leaves
    ensures forall j | 0 <= j < |r| && r[j] != leaves[j] :: Matches(leaves[j].path, prefix, suffix) && r[j].text == text
  {
    match FindLeaf(leaves, prefix, suffix)
    case None => leaves
    case Some(i) =>
      var r := leaves[i := Leaf(leaves[i].path, text)];
      SamePathsSameFindLeaf(r, leaves, prefix, suffix);
      r
  }

  /** A match inside group `g` ending in tag `t`: at least two tags, the first `g`, the last `t`. */
  lemma MatchesInGroup(path: seq<string>, g: string, t: string)
    ensures Matches(path, [g], [t]) <==> |path| >= 2 && path[0] == g && path[|path| - 1] == t
  {
    if |path| >= 2 {
      assert path[..1] == [path[0]] && path[|path| - 1..] == [path[|path| - 1]];
    }
  }

  /** Setting the leaf found by one search leaves the leaf found by another search unchanged when
      no leaf matches both. */
  lemma SetLeafTextElsewhere(leaves: seq<Leaf>, prefix: seq<string>, suffix: seq<string>, text: string,
                             prefix': seq<string>, suffix': seq<string>)
    requires forall j | 0 <= j < |leaves| :: !(Matches(leaves[j].path, prefix, suffix) && Matches(leaves[j].path, prefix', suffix'))
    ensures LeafText(SetLeafText(leaves, prefix, suffix, text), prefix', suffix') == LeafText(leaves, prefix', suffix')
  {
    var r := SetLeafText(leaves, prefix, suffix, text);
    SamePathsSameFindLeaf(r, leaves, prefix', suffix');
  }

  lemma SamePathsSameFindLeaf(a: seq<Leaf>, b: seq<Leaf>, prefix: seq<string>, suffix: seq<string>)
    requires |a| == |b| && forall j | 0 <= j < |a| :: a[j].path == b[j].path
    ensures FindLeaf(a, prefix, suffix) == FindLeaf(b, prefix, suffix)
  {
  }

  /** `inf_nfe.get('Id', 'NFe')[3:]` and `inf_nfe.get('Id')[3:]`: the key after the "NFe" prefix. */
  function KeyOfId(id: string): (k: string)
    ensures |k| == if |id| > 3 then |id| - 3 else 0
    ensures forall i | 0 <= i < |k| :: k[i] == id[i + 3]
  {
    Slice(id, 3, |id|)
  }
}
