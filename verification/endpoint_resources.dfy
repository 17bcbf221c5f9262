/** The `EndpointResources` builder: a fluent object that collects the friendly names, the
    manufacturer name and the description of an endpoint as labels, validates every label
    as it is added, remembers any failure in a sticky flag, and serialises itself only when
    it is valid and complete.

    The mutable C++ object is modelled as an immutable record; every `add*` method is a
    function from the record before the call to the record after it, so a chain of calls
    `r.addA(..).addB(..)` is `AddB(AddA(r, ..), ..)`, or `ApplyAll(r, calls)`. */
module Endpoint {
  import opened Optional
  import opened Json

  /** Maximum length of a friendly name given as text. */
  const MaxFriendlyNameLength: nat := 128
  /** Maximum length of a manufacturer name given as text. */
  const MaxManufacturerNameLength: nat := 128
  /** Maximum length of a description given as text. */
  const MaxDescriptionLength: nat := 128

  /** The number of bytes a character takes in UTF-8, the encoding the SDK's strings carry. */
  function Utf8Width(c: char): (n: nat)
    ensures 1 <= n <= 4
    ensures n == 1 <==> c as int < 0x80
  {
    if c as int < 0x80 then 1 else if c as int < 0x800 then 2 else if c as int < 0x1_0000 then 3 else 4
  }

  /** `std::string::length()`: the length limits count bytes of the UTF-8 encoding, not
      characters. Only the empty string has no bytes, and a character takes one to four. */
  function ByteLength(s: string): (n: nat)
    ensures |s| <= n <= 4 * |s|
    ensures n == 0 <==> |s| == 0
  {
    if |s| == 0 then 0 else Utf8Width(s[0]) + ByteLength(s[1..])
  }

  /** For ASCII text the byte length is the number of characters. */
  lemma {:induction false} AsciiByteLength(s: string)
    requires forall i | 0 <= i < |s| :: s[i] as int < 0x80
    ensures ByteLength(s) == |s|
  {
    if |s| > 0 {
      AsciiByteLength(s[1..]);
    }
  }

  /** Text whose every character takes at least `w` bytes has at least `w` bytes per character. */
  lemma {:induction false} ByteLengthAtLeast(s: string, w: nat)
    requires forall i | 0 <= i < |s| :: Utf8Width(s[i]) >= w
    ensures ByteLength(s) >= w * |s|
  {
    if |s| > 0 {
      ByteLengthAtLeast(s[1..], w);
    }
  }

  /** A locale name such as "en-US" (`LocaleAssetsManagerInterface::Locale`). */
  type Locale = string

  /** `Label::LabelType`. */
  datatype LabelType = Asset | Text

  /** `EndpointResources::Label`: `value` holds the text or the asset id; `locale` is
      present for text labels and absent for asset labels. */
  datatype Label = Label(labelType: LabelType, value: string, locale: Option<Locale>)

  function AssetLabel(assetId: string): Label {
    Label(Asset, assetId, None)
  }

  function TextLabel(text: string, locale: Locale): Label {
    Label(Text, text, Some(locale))
  }

  /** The manufacturer-name and description members before anything is assigned to them:
      an empty value and no locale. (The C++ member leaves the type indeterminate; nothing
      observable depends on it, because only labels with a non-empty value are serialised.) */
  const UnsetLabel: Label := Label(Asset, "", None)

  /** `Label::operator==`: equal values and equal locales, an absent locale reading as "".
      The label type is not compared. */
  predicate SameLabel(a: Label, b: Label) {
    a.value == b.value && a.locale.ValueOr("") == b.locale.ValueOr("")
  }

  /** Label equality ignores the type, and cannot tell an absent locale from an empty one. */
  lemma SameLabelIgnoresType(v: string, loc: Locale, t1: LabelType, t2: LabelType)
    ensures SameLabel(Label(t1, v, Some(loc)), Label(t2, v, Some(loc)))
    ensures SameLabel(Label(t1, v, None), Label(t2, v, Some("")))
    ensures SameLabel(AssetLabel(v), TextLabel(v, loc)) <==> loc == ""
  {
  }

  /** Label equality is an equivalence relation, so a search with it is well defined. */
  lemma SameLabelIsEquivalence(a: Label, b: Label, c: Label)
    ensures SameLabel(a, a)
    ensures SameLabel(a, b) ==> SameLabel(b, a)
    ensures SameLabel(a, b) && SameLabel(b, c) ==> SameLabel(a, c)
  {
  }

  /** Some label of `names` equals `l` under `Label::operator==`. */
  ghost predicate Listed(names: seq<Label>, l: Label) {
    exists k | 0 <= k < |names| :: SameLabel(names[k], l)
  }

  /** `std::find` over the friendly names: the index of the first label equal to `l`,
      or `|names|` (the end iterator) when there is none. */
  function Find(names: seq<Label>, l: Label): (i: nat)
    ensures i <= |names|
    ensures i < |names| ==> SameLabel(names[i], l)
    ensures forall k | 0 <= k < i :: !SameLabel(names[k], l)
  {
    if |names| == 0 || SameLabel(names[0], l) then 0
    else 1 + Find(names[1..], l)
  }

  /** The search finds something exactly when some label is equal. */
  lemma FindIsListed(names: seq<Label>, l: Label)
    ensures Find(names, l) < |names| <==> Listed(names, l)
  {
  }

  /** The builder's fields. */
  datatype EndpointResources = EndpointResources(
    isValidFlag: bool,
    friendlyNames: seq<Label>,
    manufacturerName: Label,
    description: Label)

  /** The two single-valued attributes, which share one set-at-most-once rule. */
  datatype Slot = ManufacturerName | Description

  function MaxLength(slot: Slot): nat {
    match slot
    case ManufacturerName => MaxManufacturerNameLength
    case Description => MaxDescriptionLength
  }

  function Get(r: EndpointResources, slot: Slot): Label {
    match slot
    case ManufacturerName => r.manufacturerName
    case Description => r.description
  }

  function Put(r: EndpointResources, slot: Slot, l: Label): EndpointResources {
    match slot
    case ManufacturerName => r.(manufacturerName := l)
    case Description => r.(description := l)
  }

  function Other(slot: Slot): Slot {
    match slot
    case ManufacturerName => Description
    case Description => ManufacturerName
  }

  /** `EndpointResources::isValid`: no error was noted, at least one friendly name was
      added, and the description and manufacturer name are set. */
  predicate IsValid(r: EndpointResources) {
    r.isValidFlag && |r.friendlyNames| > 0 && |r.description.value| > 0
    && |r.manufacturerName.value| > 0
  }

  /** The constructor: the flag is set, nothing is added yet, so the object is not valid. */
  function Create(): (r: EndpointResources)
    ensures r.isValidFlag
    ensures r.friendlyNames == []
    ensures r.manufacturerName.value == "" && r.description.value == ""
    ensures !IsValid(r)
  {
    EndpointResources(true, [], UnsetLabel, UnsetLabel)
  }

  /** `addFriendlyNameWithAssetId`: an empty or duplicate asset id marks the object invalid
      and adds nothing; any other id is appended as an asset label. */
  function AddFriendlyNameWithAssetId(r: EndpointResources, assetId: string): (r': EndpointResources)
    ensures r'.manufacturerName == r.manufacturerName && r'.description == r.description
    ensures assetId == "" || Listed(r.friendlyNames, AssetLabel(assetId)) ==>
              r'.friendlyNames == r.friendlyNames && !r'.isValidFlag
    ensures assetId != "" && !Listed(r.friendlyNames, AssetLabel(assetId)) ==>
              r' == r.(friendlyNames := r.friendlyNames + [AssetLabel(assetId)])
  {
    if |assetId| == 0 then r.(isValidFlag := false)
    else if Find(r.friendlyNames, AssetLabel(assetId)) < |r.friendlyNames| then r.(isValidFlag := false)
    else r.(friendlyNames := r.friendlyNames + [AssetLabel(assetId)])
  }

  /** `addFriendlyNameWithText`: empty text or text over 128 bytes, or an empty locale, marks the
      object invalid and adds nothing; a duplicate (text, locale) changes nothing at all;
      anything else is appended as a text label. */
  function AddFriendlyNameWithText(r: EndpointResources, text: string, locale: Locale): (r': EndpointResources)
    ensures r'.manufacturerName == r.manufacturerName && r'.description == r.description
    ensures |text| == 0 || ByteLength(text) > MaxFriendlyNameLength || locale == "" ==>
              r'.friendlyNames == r.friendlyNames && !r'.isValidFlag
    ensures (0 < |text| && ByteLength(text) <= MaxFriendlyNameLength && locale != ""
             && Listed(r.friendlyNames, TextLabel(text, locale))) ==> r' == r
    ensures (0 < |text| && ByteLength(text) <= MaxFriendlyNameLength && locale != ""
             && !Listed(r.friendlyNames, TextLabel(text, locale))) ==>
              r' == r.(friendlyNames := r.friendlyNames + [TextLabel(text, locale)])
  {
    if |text| == 0 || ByteLength(text) > MaxFriendlyNameLength then r.(isValidFlag := false)
    else if |locale| == 0 then r.(isValidFlag := false)
    else if Find(r.friendlyNames, TextLabel(text, locale)) < |r.friendlyNames| then r
    else r.(friendlyNames := r.friendlyNames + [TextLabel(text, locale)])
  }

  /** The shared body of `addManufacturerNameWithAssetId` and `addDescriptionWithAssetId`:
      an empty asset id, or a slot whose value is already non-empty, marks the object
      invalid and leaves the slot as it was; otherwise the slot takes the asset label. */
  function AddWithAssetId(r: EndpointResources, slot: Slot, assetId: string): (r': EndpointResources)
    ensures r'.friendlyNames == r.friendlyNames && Get(r', Other(slot)) == Get(r, Other(slot))
    ensures r'.isValidFlag <==> r.isValidFlag && assetId != "" && Get(r, slot).value == ""
    ensures assetId == "" || Get(r, slot).value != "" ==> Get(r', slot) == Get(r, slot)
    ensures assetId != "" && Get(r, slot).value == "" ==> Get(r', slot) == AssetLabel(assetId)
  {
    if |assetId| == 0 then r.(isValidFlag := false)
    else if |Get(r, slot).value| != 0 then r.(isValidFlag := false)
    else Put(r, slot, AssetLabel(assetId))
  }

  /** The shared body of `addManufacturerNameWithText` and `addDescriptionWithText`. Bad
      text or an empty locale marks the object invalid but does not return early: if the
      slot is still empty, the bad label is stored all the same. A slot whose value is
      already non-empty is never overwritten, and trying marks the object invalid. */
  function AddWithText(r: EndpointResources, slot: Slot, text: string, locale: Locale): (r': EndpointResources)
    ensures r'.friendlyNames == r.friendlyNames && Get(r', Other(slot)) == Get(r, Other(slot))
    ensures r'.isValidFlag <==>
              r.isValidFlag && 0 < |text| && ByteLength(text) <= MaxLength(slot) && locale != ""
              && Get(r, slot).value == ""
    ensures Get(r, slot).value != "" ==> Get(r', slot) == Get(r, slot)
    ensures Get(r, slot).value == "" ==> Get(r', slot) == TextLabel(text, locale)
  {
    var checked := r.isValidFlag && 0 < |text| && ByteLength(text) <= MaxLength(slot) && |locale| > 0;
    if |Get(r, slot).value| != 0 then r.(isValidFlag := false)
    else Put(r, slot, TextLabel(text, locale)).(isValidFlag := checked)
  }

  /** `addManufacturerNameWithAssetId`. */
  function AddManufacturerNameWithAssetId(r: EndpointResources, assetId: string): (r': EndpointResources)
    ensures r'.friendlyNames == r.friendlyNames && r'.description == r.description
    ensures r'.isValidFlag <==> r.isValidFlag && assetId != "" && r.manufacturerName.value == ""
    ensures r'.manufacturerName ==
              if assetId != "" && r.manufacturerName.value == "" then AssetLabel(assetId) else r.manufacturerName
  {
    AddWithAssetId(r, ManufacturerName, assetId)
  }

  /** `addManufacturerNameWithText`. */
  function AddManufacturerNameWithText(r: EndpointResources, text: string, locale: Locale): (r': EndpointResources)
    ensures r'.friendlyNames == r.friendlyNames && r'.description == r.description
    ensures r'.isValidFlag <==>
              r.isValidFlag && 0 < |text| && ByteLength(text) <= MaxManufacturerNameLength && locale != ""
              && r.manufacturerName.value == ""
    ensures r'.manufacturerName ==
              if r.manufacturerName.value == "" then TextLabel(text, locale) else r.manufacturerName
  {
    AddWithText(r, ManufacturerName, text, locale)
  }

  /** `addDescriptionWithAssetId`. */
  function AddDescriptionWithAssetId(r: EndpointResources, assetId: string): (r': EndpointResources)
    ensures r'.friendlyNames == r.friendlyNames && r'.manufacturerName == r.manufacturerName
    ensures r'.isValidFlag <==> r.isValidFlag && assetId != "" && r.description.value == ""
    ensures r'.description ==
              if assetId != "" && r.description.value == "" then AssetLabel(assetId) else r.description
  {
    AddWithAssetId(r, Description, assetId)
  }

  /** `addDescriptionWithText`. */
  function AddDescriptionWithText(r: EndpointResources, text: string, locale: Locale): (r': EndpointResources)
    ensures r'.friendlyNames == r.friendlyNames && r'.manufacturerName == r.manufacturerName
    ensures r'.isValidFlag <==>
              r.isValidFlag && 0 < |text| && ByteLength(text) <= MaxDescriptionLength && locale != ""
              && r.description.value == ""
    ensures r'.description ==
              if r.description.value == "" then TextLabel(text, locale) else r.description
  {
    AddWithText(r, Description, text, locale)
  }

  // ---------------------------------------------------------------------------------------
  // Serialisation and its inverse

  /** A label as the `add*` methods store it: a locale exactly on text labels. */
  predicate Shaped(l: Label) {
    l.locale.Some? <==> l.labelType == Text
  }

  /** Reads back a label written by `LabelToJson`. */
  function ParseLabel(j: Json): Option<Label> {
    match j
    case JObj(m) =>
      if "@type" in m && "value" in m && m["value"].JObj? then
        var v := m["value"].members;
        if m["@type"] == JStr("text") && "text" in v && v["text"].JStr? && "locale" in v && v["locale"].JStr? then
          Some(TextLabel(v["text"].s, v["locale"].s))
        else if m["@type"] == JStr("asset") && "assetId" in v && v["assetId"].JStr? then
          Some(AssetLabel(v["assetId"].s))
        else None
      else None
    case _ => None
  }

  /** `Label::toJson`: `{"@type":"text","value":{"text":..,"locale":..}}` or
      `{"@type":"asset","value":{"assetId":..}}`. Every label the builder stores reads back
      unchanged. */
  function LabelToJson(l: Label): (j: Json)
    ensures Shaped(l) ==> ParseLabel(j) == Some(l)
    ensures j.JObj? && "@type" in j.members
  {
    match l.labelType
    case Text =>
      JObj(map["@type" := JStr("text"),
               "value" := JObj(map["text" := JStr(l.value), "locale" := JStr(l.locale.ValueOr(""))])])
    case Asset =>
      JObj(map["@type" := JStr("asset"), "value" := JObj(map["assetId" := JStr(l.value)])])
  }

  function LabelsToJson(ls: seq<Label>): seq<Json> {
    seq(|ls|, i requires 0 <= i < |ls| => LabelToJson(ls[i]))
  }

  function ParseLabels(js: seq<Json>): Option<seq<Label>> {
    if |js| == 0 then Some([])
    else
      match (ParseLabel(js[0]), ParseLabels(js[1..]))
      case (Some(l), Some(ls)) => Some([l] + ls)
      case _ => None
  }

  /** A list of builder labels reads back unchanged, element by element. */
  lemma {:induction false} ParseLabelsRoundTrip(ls: seq<Label>)
    requires forall i | 0 <= i < |ls| :: Shaped(ls[i])
    ensures ParseLabels(LabelsToJson(ls)) == Some(ls)
  {
    if |ls| > 0 {
      assert LabelsToJson(ls)[1..] == LabelsToJson(ls[1..]);
      ParseLabelsRoundTrip(ls[1..]);
      assert [ls[0]] + ls[1..] == ls;
    }
  }

  /** The three attributes as read back from a built document. */
  datatype Contents = Contents(friendlyNames: seq<Label>, manufacturerName: Label, description: Label)

  /** Reads back a document written by `Build`. */
  function ParseResources(j: Json): Option<Contents> {
    match j
    case JObj(m) =>
      if "friendlyNames" in m && m["friendlyNames"].JArr? && "manufacturerName" in m && "description" in m then
        match (ParseLabels(m["friendlyNames"].items), ParseLabel(m["manufacturerName"]), ParseLabel(m["description"]))
        case (Some(ns), Some(mn), Some(d)) => Some(Contents(ns, mn, d))
        case _ => None
      else None
    case _ => None
  }

  /** `EndpointResources::build`: nothing (the empty string) exactly when the object is not
      valid; otherwise an object with the members friendlyNames, manufacturerName and
      description. */
  function Build(r: EndpointResources): (out: Option<Json>)
    ensures out.None? <==> !IsValid(r)
    ensures out.Some? ==>
              && out.value.JObj?
              && out.value.members.Keys == {"friendlyNames", "manufacturerName", "description"}
              && out.value.members["friendlyNames"].JArr?
              && |out.value.members["friendlyNames"].items| == |r.friendlyNames|
  {
    if !IsValid(r) then None
    else
      Some(JObj(map["friendlyNames" := JArr(LabelsToJson(r.friendlyNames)),
                    "manufacturerName" := LabelToJson(r.manufacturerName),
                    "description" := LabelToJson(r.description)]))
  }

  /** A built document reads back as exactly the friendly names (in insertion order), the
      manufacturer name and the description of the builder. */
  lemma BuildRoundTrip(r: EndpointResources)
    requires Inv(r) && IsValid(r)
    ensures ParseResources(Build(r).value) == Some(Contents(r.friendlyNames, r.manufacturerName, r.description))
  {
    ParseLabelsRoundTrip(r.friendlyNames);
  }

  // ---------------------------------------------------------------------------------------
  // The invariant every builder reachable from the constructor keeps

  /** A label that passed its `add*` method's checks: a non-empty value, and for text at
      most `maxLength` bytes with a non-empty locale. */
  predicate WellFormed(l: Label, maxLength: nat) {
    |l.value| > 0 &&
    match l.labelType
    case Asset => l.locale.None?
    case Text => l.locale.Some? && ByteLength(l.value) <= maxLength && |l.locale.value| > 0
  }

  /** No two friendly names are equal under `Label::operator==`. */
  ghost predicate Distinct(names: seq<Label>) {
    forall i, j | 0 <= i < j < |names| :: !SameLabel(names[i], names[j])
  }

  ghost predicate SlotInv(r: EndpointResources, slot: Slot) {
    Shaped(Get(r, slot)) && (r.isValidFlag ==> Get(r, slot) == UnsetLabel || WellFormed(Get(r, slot), MaxLength(slot)))
  }

  /** Every friendly name is well formed and they are pairwise distinct; the two single
      labels are shaped, and while no error has been noted they are unset or well formed. */
  ghost predicate Inv(r: EndpointResources) {
    && (forall i | 0 <= i < |r.friendlyNames| :: WellFormed(r.friendlyNames[i], MaxFriendlyNameLength))
    && Distinct(r.friendlyNames)
    && SlotInv(r, ManufacturerName)
    && SlotInv(r, Description)
  }

  /** One builder call. */
  datatype Call =
    | FriendlyNameWithAssetId(assetId: string)
    | FriendlyNameWithText(text: string, locale: Locale)
    | ManufacturerNameWithAssetId(assetId: string)
    | ManufacturerNameWithText(text: string, locale: Locale)
    | DescriptionWithAssetId(assetId: string)
    | DescriptionWithText(text: string, locale: Locale)

  function Apply(r: EndpointResources, c: Call): EndpointResources {
    match c
    case FriendlyNameWithAssetId(a) => AddFriendlyNameWithAssetId(r, a)
    case FriendlyNameWithText(t, l) => AddFriendlyNameWithText(r, t, l)
    case ManufacturerNameWithAssetId(a) => AddManufacturerNameWithAssetId(r, a)
    case ManufacturerNameWithText(t, l) => AddManufacturerNameWithText(r, t, l)
    case DescriptionWithAssetId(a) => AddDescriptionWithAssetId(r, a)
    case DescriptionWithText(t, l) => AddDescriptionWithText(r, t, l)
  }

  /** A chain of builder calls, left to right. */
  function ApplyAll(r: EndpointResources, calls: seq<Call>): EndpointResources
    decreases |calls|
  {
    if |calls| == 0 then r else ApplyAll(Apply(r, calls[0]), calls[1..])
  }

  lemma CreateInv()
    ensures Inv(Create())
  {
  }

  /** Appending a well-formed label that is not listed keeps the friendly names distinct. */
  lemma AppendKeepsDistinct(names: seq<Label>, l: Label)
    requires Distinct(names) && !Listed(names, l)
    ensures Distinct(names + [l])
  {
    forall i, j | 0 <= i < j < |names + [l]|
      ensures !SameLabel((names + [l])[i], (names + [l])[j])
    {
      if j == |names| {
        assert (names + [l])[i] == names[i];
      }
    }
  }

  /** Every builder call keeps the invariant. */
  lemma ApplyKeepsInv(r: EndpointResources, c: Call)
    requires Inv(r)
    ensures Inv(Apply(r, c))
  {
    match c
    case FriendlyNameWithAssetId(a) =>
      if a != "" && !Listed(r.friendlyNames, AssetLabel(a)) {
        AppendKeepsDistinct(r.friendlyNames, AssetLabel(a));
      }
    case FriendlyNameWithText(t, l) =>
      if 0 < |t| && ByteLength(t) <= MaxFriendlyNameLength && l != "" && !Listed(r.friendlyNames, TextLabel(t, l)) {
        AppendKeepsDistinct(r.friendlyNames, TextLabel(t, l));
      }
    case _ =>
  }

  /** Every chain of builder calls from a state that keeps the invariant keeps it. */
  lemma {:induction false} ApplyAllKeepsInv(r: EndpointResources, calls: seq<Call>)
    requires Inv(r)
    ensures Inv(ApplyAll(r, calls))
    decreases |calls|
  {
    if |calls| > 0 {
      ApplyKeepsInv(r, calls[0]);
      ApplyAllKeepsInv(Apply(r, calls[0]), calls[1..]);
    }
  }

  /** The invalid flag is sticky: no call clears an error noted by an earlier one, so a
      valid result means no call in the chain failed its checks. */
  lemma {:induction false} FlagIsMonotone(r: EndpointResources, calls: seq<Call>)
    ensures ApplyAll(r, calls).isValidFlag ==> r.isValidFlag
    ensures !r.isValidFlag ==> !IsValid(ApplyAll(r, calls))
    decreases |calls|
  {
    if |calls| > 0 {
      FlagIsMonotone(Apply(r, calls[0]), calls[1..]);
    }
  }

  /** Any builder reached from the constructor that is valid builds into a document that
      holds only well-formed labels and reads back as the builder's own contents. */
  lemma BuiltDocumentIsChecked(calls: seq<Call>)
    ensures var r := ApplyAll(Create(), calls);
      IsValid(r) ==>
        && (forall i | 0 <= i < |r.friendlyNames| :: WellFormed(r.friendlyNames[i], MaxFriendlyNameLength))
        && WellFormed(r.manufacturerName, MaxManufacturerNameLength)
        && WellFormed(r.description, MaxDescriptionLength)
        && ParseResources(Build(r).value) == Some(Contents(r.friendlyNames, r.manufacturerName, r.description))
  {
    CreateInv();
    ApplyAllKeepsInv(Create(), calls);
    var r := ApplyAll(Create(), calls);
    if IsValid(r) {
      assert SlotInv(r, ManufacturerName) && SlotInv(r, Description);
      BuildRoundTrip(r);
    }
  }

  /** In a builder that keeps the invariant, a friendly asset id counts as a duplicate only
      of an identical asset label (text labels always carry a non-empty locale), and a
      friendly text only of an identical text label: ignoring the type never matters. */
  lemma DuplicatesAreIdentical(r: EndpointResources, l: Label)
    requires Inv(r) && WellFormed(l, MaxFriendlyNameLength)
    ensures Listed(r.friendlyNames, l) <==> l in r.friendlyNames
  {
    if Listed(r.friendlyNames, l) {
      var k :| 0 <= k < |r.friendlyNames| && SameLabel(r.friendlyNames[k], l);
      assert r.friendlyNames[k] == l;
    }
    if l in r.friendlyNames {
      var k :| 0 <= k < |r.friendlyNames| && r.friendlyNames[k] == l;
      assert SameLabel(r.friendlyNames[k], l);
    }
  }

  /** The header documents the limit as 128 characters, but the checks count bytes: 100
      copies of 'é' (two bytes each in UTF-8) are 100 characters and are still refused,
      while 128 ASCII characters are accepted. */
  lemma TextLimitCountsBytes()
    ensures var r := AddFriendlyNameWithText(Create(), seq(100, i => 'é'), "fr-FR");
      r.friendlyNames == [] && !r.isValidFlag
    ensures var r := AddFriendlyNameWithText(Create(), seq(128, i => 'a'), "en-US");
      r.friendlyNames == [TextLabel(seq(128, i => 'a'), "en-US")] && r.isValidFlag
  {
    ByteLengthAtLeast(seq(100, i => 'é'), 2);
    AsciiByteLength(seq(128, i => 'a'));
  }
}
