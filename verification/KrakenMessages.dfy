/**
 A whole Kraken message, from its document tree to the adapter's decision. The parsed
 payload picks the sides by decoded name inside `data[0]`, the scanner searches the raw
 text for them: here is when both mean the same array, and what is read otherwise.
 */
module KrakenMessages {
  import opened Wrappers
  import opened JsonText
  import opened JsonScanner
  import opened JsonScannerProofs
  import opened KrakenBook
  import opened KrakenAdapter

  // ---------- From a printed array to exact tokens ----------

  /** The changes a list of level objects spells, read off the document tree. */
  function TreeChanges(levels: seq<Json>, allowDeletion: bool): Option<seq<Change>> {
    if levels == [] then Some([])
    else Before(TreeChange(levels[0]), TreeChanges(levels[1..], allowDeletion), allowDeletion)
  }

  function TreeChange(level: Json): Option<Change> {
    if !level.Object? then None
    else match (TokenOfMember(MemberValue(level.members, "price")), TokenOfMember(MemberValue(level.members, "qty")))
      case (Some(price), Some(quantity)) =>
        if ValidChange(Change(price, quantity)) then Some(Change(price, quantity)) else None
      case _ => None
  }

  /** The changes an array of `count` level objects spells; `None` when it is no such array. */
  function Spelled(v: Json, count: nat, allowDeletion: bool): Option<seq<Change>> {
    match ArrayOfObjects(v)
    case None => None
    case Some(levels) => if |levels| == count then TreeChanges(levels, allowDeletion) else None
  }

  lemma {:induction false} PrintAllLength(values: seq<Json>)
    ensures |PrintAll(values)| == |values|
  {
    if values != [] {
      PrintAllLength(values[1..]);
    }
  }

  predicate ObjectsOnly(levels: seq<Json>) {
    forall i :: 0 <= i < |levels| ==> Valid(levels[i]) && levels[i].IsObject()
  }

  /** A flag is missing only where the level spells no change anyway. */
  predicate FlagsAllow(levels: seq<Json>, flags: seq<bool>)
    requires |levels| == |flags|
  {
    forall i :: 0 <= i < |levels| ==> flags[i] || TreeChange(levels[i]).None?
  }

  lemma {:induction false} EntrySpellsLevel(level: Json, flag: bool)
    requires Valid(level) && level.IsObject() && (flag || TreeChange(level).None?)
    ensures ReadChange(Print(level), flag) == TreeChange(level)
  {
    DecimalMemberIsMemberToken(level, "price");
    DecimalMemberIsMemberToken(level, "qty");
  }

  lemma {:induction false} EntriesSpellTree(levels: seq<Json>, flags: seq<bool>, allowDeletion: bool)
    requires ObjectsOnly(levels) && |flags| == |levels| && FlagsAllow(levels, flags)
    ensures |PrintAll(levels)| == |levels|
    ensures ReadChanges(PrintAll(levels), flags, allowDeletion) == TreeChanges(levels, allowDeletion)
  {
    PrintAllLength(levels);
    if levels != [] {
      EntriesSpellTree(levels[1..], flags[1..], allowDeletion);
      EntrySpellsLevel(levels[0], flags[0]);
      assert PrintAll(levels)[1..] == PrintAll(levels[1..]);
    }
  }

  lemma {:induction false} ElementsAreValid(es: Elements)
    requires ValidElements(es) && ObjectElements(es).Some?
    ensures ObjectsOnly(ObjectElements(es).value)
  {
    if es.MoreElements? {
      ElementsAreValid(es.rest);
    }
  }

  function Levels(v: Json): seq<Json> {
    match ArrayOfObjects(v) case None => [] case Some(levels) => levels
  }

  lemma {:induction false} LevelsAreValid(v: Json)
    requires Valid(v) && v.IsArray()
    ensures ObjectsOnly(Levels(v))
  {
    if v.Array? && ArrayOfObjects(v).Some? {
      ElementsAreValid(v.elements);
    }
  }

  /** Splitting and reading the text of an array is reading its tree. */
  lemma {:induction false} TextSpellsTree(v: Json, flags: seq<bool>, allowDeletion: bool)
    requires Valid(v) && v.IsArray() && (|Levels(v)| == |flags| ==> FlagsAllow(Levels(v), flags))
    ensures ReadArray(Print(v), flags, allowDeletion) == Spelled(v, |flags|, allowDeletion)
  {
    SplitIsObjectElements(v);
    LevelsAreValid(v);
    PrintAllLength(Levels(v));
    if ArrayOfObjects(v).Some? && |Levels(v)| == |flags| {
      EntriesSpellTree(Levels(v), flags, allowDeletion);
    }
  }

  /**
   For every well-formed message text, the scanner pipeline yields exactly the price
   and quantity tokens of the first array of that name, character for character, or
   fails when that is no list of as many level objects.
   */
  lemma {:induction false} ScannerRecoversTokens(doc: Json, field: string, flags: seq<bool>, allowDeletion: bool)
    requires Valid(doc) && FirstArray(doc, field).Some? && forall i :: 0 <= i < |flags| ==> flags[i]
    ensures ReadSide(Print(doc), field, Some(flags), allowDeletion)
      == Spelled(FirstArray(doc, field).value.value, |flags|, allowDeletion)
  {
    FindMemberArrayIsFirstArray(doc, field);
    AtWhole(Print(doc));
    SpotInValue(Print(doc), 0, doc, field);
    TextSpellsTree(FirstArray(doc, field).value.value, flags, allowDeletion);
  }

  // ---------- The parsed message ----------

  /** What the JSON parser makes of string bodies, number tokens and timestamp texts. */
  datatype Parser = Parser(decode: string -> string, number: string -> Option<int>, time: string -> Option<int>)

  /** A string without escapes stands for itself. */
  ghost predicate Faithful(parser: Parser) {
    forall s :: '\\' !in s ==> parser.decode(s) == s
  }

  /** The member of that decoded name; of duplicates the parser keeps the last. */
  function Lookup(parser: Parser, ms: Members, field: string): Option<Spot> {
    var here :=
      if parser.decode(Raw(ms.member.key)) == field then Some(Spot(ValueOffset(ms.member), ms.member.value)) else None;
    match ms
    case LastMember(_) => here
    case MoreMembers(m, rest) =>
      var later := Shifted(|PrintMember(m)| + 1, Lookup(parser, rest, field));
      if later.Some? then later else here
  }

  function MemberOf(parser: Parser, v: Json, field: string): Option<Spot> {
    if v.Object? then Shifted(1, Lookup(parser, v.members, field)) else None
  }

  /** The one object in the array `data`. */
  function Payload(parser: Parser, doc: Json): Option<Spot> {
    match MemberOf(parser, doc, "data")
    case Some(Spot(offset, Array(LastElement(before, value, _)))) =>
      if value.IsObject() then Some(Spot(offset + 1 + |before|, value)) else None
    case _ => None
  }

  function PayloadMember(parser: Parser, doc: Json, field: string): Option<Spot> {
    match Payload(parser, doc)
    case None => None
    case Some(payload) => Shifted(payload.offset, MemberOf(parser, payload.value, field))
  }

  function TextIn(parser: Parser, found: Option<Spot>): Option<string> {
    if found.Some? && found.value.value.Text? then Some(parser.decode(Raw(found.value.value.body))) else None
  }

  function NumberIn(parser: Parser, found: Option<Spot>): Option<int> {
    if found.Some? && found.value.value.Scalar? then parser.number(found.value.value.token) else None
  }

  function TimeIn(parser: Parser, found: Option<Spot>): Option<int> {
    match TextIn(parser, found) case None => None case Some(text) => parser.time(text)
  }

  /** The level is an object with a price and a quantity. */
  predicate HasBoth(parser: Parser, level: Json) {
    MemberOf(parser, level, "price").Some? && MemberOf(parser, level, "qty").Some?
  }

  function ElementFlags(parser: Parser, es: Elements): seq<bool> {
    [HasBoth(parser, es.value)] + if es.LastElement? then [] else ElementFlags(parser, es.rest)
  }

  function Flags(parser: Parser, found: Option<Spot>): Option<seq<bool>> {
    match found
    case Some(Spot(_, EmptyArray(_))) => Some([])
    case Some(Spot(_, Array(elements))) => Some(ElementFlags(parser, elements))
    case _ => None
  }

  function DataOf(parser: Parser, doc: Json): Option<BookData> {
    if Payload(parser, doc).None? then None
    else Some(BookData(
      TextIn(parser, PayloadMember(parser, doc, "symbol")),
      Flags(parser, PayloadMember(parser, doc, "asks")),
      Flags(parser, PayloadMember(parser, doc, "bids")),
      NumberIn(parser, PayloadMember(parser, doc, "checksum")),
      TimeIn(parser, PayloadMember(parser, doc, "timestamp"))))
  }

  function ParsedOf(parser: Parser, doc: Json): ParsedMessage {
    if !doc.IsObject() then NotAnObject
    else if TextIn(parser, MemberOf(parser, doc, "channel")) != Some("book") then OtherChannel
    else BookMessage(TextIn(parser, MemberOf(parser, doc, "type")), DataOf(parser, doc))
  }

  // ---------- The decision on the payload's own levels ----------

  function OwnSide(parser: Parser, doc: Json, field: string, allowDeletion: bool): Option<seq<Change>> {
    match (PayloadMember(parser, doc, field), Flags(parser, PayloadMember(parser, doc, field)))
    case (Some(side), Some(flags)) => Spelled(side.value, |flags|, allowDeletion)
    case _ => None
  }

  /** What is read for a side from the message's text. */
  function ReadOf(parser: Parser, doc: Json, field: string, allowDeletion: bool): Option<seq<Change>> {
    ReadSide(Print(doc), field, Flags(parser, PayloadMember(parser, doc, field)), allowDeletion)
  }

  function OwnBatch(parser: Parser, doc: Json, snapshot: bool, data: BookData): Option<Batch> {
    Complete(snapshot, OwnSide(parser, doc, "asks", !snapshot), OwnSide(parser, doc, "bids", !snapshot), data)
  }

  /** What the adapter should decide: everything is taken from the payload itself. */
  function OwnDecision(parser: Parser, cfg: AdapterConfig, s: AdapterState, doc: Json): Attempt {
    match ParsedOf(parser, doc)
    case NotAnObject => Rejected
    case OtherChannel => Ignored
    case BookMessage(kind, None) => Judge(cfg, s, kind, None, None)
    case BookMessage(kind, Some(data)) =>
      Judge(cfg, s, kind, Some(data), OwnBatch(parser, doc, kind == Some("snapshot"), data))
  }

  /** What it decides on the message's text. */
  function Decision(parser: Parser, cfg: AdapterConfig, s: AdapterState, doc: Json): Attempt {
    Decide(cfg, s, Print(doc), ParsedOf(parser, doc))
  }

  /** The payload's side, if it is an array, is the first array of its name in document order. */
  predicate IsFirst(parser: Parser, doc: Json, field: string) {
    var own, first := PayloadMember(parser, doc, field), FirstArray(doc, field);
    own.Some? && own.value.value.IsArray() ==> first.Some? && first.value.offset == own.value.offset
  }

  lemma {:induction false} LookupIsPrinted(text: string, p: nat, parser: Parser, ms: Members, field: string)
    requires ValidMembers(ms) && At(text, p, PrintMembers(ms)) && Lookup(parser, ms, field).Some?
    ensures var spot := Lookup(parser, ms, field).value;
      Valid(spot.value) && At(text, p + spot.offset, Print(spot.value))
    decreases ms
  {
    MembersParts(text, p, ms);
    MemberParts(text, p, ms.member);
    if ms.MoreMembers? && Lookup(parser, ms.rest, field).Some? {
      var q := p + |PrintMember(ms.member)|;
      NextMembers(text, q, ms);
      LookupIsPrinted(text, q + 1, parser, ms.rest, field);
    }
  }

  lemma {:induction false} MemberIsPrinted(text: string, p: nat, parser: Parser, v: Json, field: string)
    requires Valid(v) && At(text, p, Print(v)) && MemberOf(parser, v, field).Some?
    ensures var spot := MemberOf(parser, v, field).value;
      Valid(spot.value) && At(text, p + spot.offset, Print(spot.value))
  {
    ContainerParts(text, p, v);
    LookupIsPrinted(text, p + 1, parser, v.members, field);
  }

  lemma {:induction false} OnlyElementIsPrinted(text: string, p: nat, v: Json)
    requires Valid(v) && v.Array? && v.elements.LastElement? && At(text, p, Print(v))
    ensures Valid(v.elements.value) && At(text, p + 1 + |v.elements.before|, Print(v.elements.value))
  {
    ContainerParts(text, p, v);
    ElementParts(text, p + 1, v.elements);
  }

  lemma {:induction false} PayloadIsPrinted(parser: Parser, doc: Json)
    requires Valid(doc) && Payload(parser, doc).Some?
    ensures var spot := Payload(parser, doc).value;
      Valid(spot.value) && At(Print(doc), spot.offset, Print(spot.value))
  {
    var data := MemberOf(parser, doc, "data").value;
    AtWhole(Print(doc));
    MemberIsPrinted(Print(doc), 0, parser, doc, "data");
    OnlyElementIsPrinted(Print(doc), data.offset, data.value);
  }

  lemma {:induction false} OwnSideIsPrinted(parser: Parser, doc: Json, field: string)
    requires Valid(doc) && PayloadMember(parser, doc, field).Some?
    ensures var spot := PayloadMember(parser, doc, field).value;
      Valid(spot.value) && At(Print(doc), spot.offset, Print(spot.value))
  {
    var payload := Payload(parser, doc).value;
    PayloadIsPrinted(parser, doc);
    MemberIsPrinted(Print(doc), payload.offset, parser, payload.value, field);
  }

  /** The scanner cuts out the payload's own side if and only if that is the first array of its name. */
  lemma {:induction false} ScannerFindsOwnSideIff(parser: Parser, doc: Json, field: string)
    requires Valid(doc) && PayloadMember(parser, doc, field).Some?
    requires PayloadMember(parser, doc, field).value.value.IsArray()
    ensures var own := PayloadMember(parser, doc, field).value;
      && (FindBegin(Print(doc), 0, field) == Some(own.offset) <==> IsFirst(parser, doc, field))
      && (IsFirst(parser, doc, field) ==> FindArray(Print(doc), field) == Some(Print(own.value)))
  {
    FindMemberArrayIsFirstArray(doc, field);
    OwnSideIsPrinted(parser, doc, field);
    TextAtSpot(Print(doc), PayloadMember(parser, doc, field).value);
  }

  // ---------- Flags ----------

  lemma {:induction false} LookupSeesRawName(parser: Parser, ms: Members, field: string)
    requires Faithful(parser) && '\\' !in field && MemberValue(ms, field).Some?
    ensures Lookup(parser, ms, field).Some?
    decreases ms
  {
    if Raw(ms.member.key) != field {
      LookupSeesRawName(parser, ms.rest, field);
    }
  }

  lemma {:induction false} ChangedLevelHasBoth(parser: Parser, level: Json)
    requires Faithful(parser) && TreeChange(level).Some?
    ensures HasBoth(parser, level)
  {
    LookupSeesRawName(parser, level.members, "price");
    LookupSeesRawName(parser, level.members, "qty");
  }

  lemma {:induction false} FlagsAllowCons(level: Json, flag: bool, levels: seq<Json>, flags: seq<bool>)
    requires |levels| == |flags| && FlagsAllow(levels, flags) && (flag || TreeChange(level).None?)
    ensures FlagsAllow([level] + levels, [flag] + flags)
  {}

  lemma {:induction false} ElementFlagsAllow(parser: Parser, es: Elements)
    requires Faithful(parser) && ObjectElements(es).Some?
    ensures |ElementFlags(parser, es)| == |ObjectElements(es).value|
    ensures FlagsAllow(ObjectElements(es).value, ElementFlags(parser, es))
    decreases es
  {
    if TreeChange(es.value).Some? {
      ChangedLevelHasBoth(parser, es.value);
    }
    if es.MoreElements? {
      ElementFlagsAllow(parser, es.rest);
      FlagsAllowCons(
        es.value, HasBoth(parser, es.value), ObjectElements(es.rest).value, ElementFlags(parser, es.rest));
    } else {
      FlagsAllowCons(es.value, HasBoth(parser, es.value), [], []);
      assert [es.value] + [] == [es.value];
    }
  }

  lemma {:induction false} OwnFlagsAllow(parser: Parser, side: Spot, flags: seq<bool>)
    requires Faithful(parser) && Flags(parser, Some(side)) == Some(flags)
    ensures |Levels(side.value)| == |flags| ==> FlagsAllow(Levels(side.value), flags)
  {
    if side.value.Array? && ArrayOfObjects(side.value).Some? {
      ElementFlagsAllow(parser, side.value.elements);
    }
  }

  // ---------- Theorems ----------

  lemma {:induction false} ReadsOwnSide(parser: Parser, doc: Json, field: string, allowDeletion: bool)
    requires Valid(doc) && Faithful(parser) && IsFirst(parser, doc, field)
    ensures ReadOf(parser, doc, field, allowDeletion) == OwnSide(parser, doc, field, allowDeletion)
  {
    var own := PayloadMember(parser, doc, field);
    if Flags(parser, own).Some? {
      ScannerFindsOwnSideIff(parser, doc, field);
      OwnSideIsPrinted(parser, doc, field);
      OwnFlagsAllow(parser, own.value, Flags(parser, own).value);
      TextSpellsTree(own.value.value, Flags(parser, own).value, allowDeletion);
    }
  }

  /** As long as both sides come first, the adapter decides on the payload's own levels and nothing else. */
  lemma {:induction false} DecidesOnOwnLevels(parser: Parser, cfg: AdapterConfig, s: AdapterState, doc: Json)
    requires Valid(doc) && Faithful(parser) && IsFirst(parser, doc, "asks") && IsFirst(parser, doc, "bids")
    ensures Decision(parser, cfg, s, doc) == OwnDecision(parser, cfg, s, doc)
  {
    var m := ParsedOf(parser, doc);
    if m.BookMessage? && m.data.Some? {
      ReadsOwnSide(parser, doc, "asks", m.kind != Some("snapshot"));
      ReadsOwnSide(parser, doc, "bids", m.kind != Some("snapshot"));
    }
  }

  // ---------- A side that does not come first ----------

  predicate AllSpell(levels: seq<Json>) {
    forall i :: 0 <= i < |levels| ==> TreeChange(levels[i]).Some?
  }

  lemma {:induction false} AllSpellCons(level: Json, more: seq<Json>)
    requires TreeChange(level).Some? && AllSpell(more)
    ensures AllSpell([level] + more)
  {}

  lemma {:induction false} BeforeSome(first: Option<Change>, more: Option<seq<Change>>, allowDeletion: bool)
    requires Before(first, more, allowDeletion).Some?
    ensures first.Some? && more.Some? && |Before(first, more, allowDeletion).value| == 1 + |more.value|
  {}

  lemma {:induction false} FirstChangeOf(levels: seq<Json>, allowDeletion: bool)
    requires TreeChanges(levels, allowDeletion).Some? && levels != []
    ensures TreeChange(levels[0]).Some? && TreeChanges(levels[1..], allowDeletion).Some?
    ensures |TreeChanges(levels, allowDeletion).value| == 1 + |TreeChanges(levels[1..], allowDeletion).value|
  {
    BeforeSome(TreeChange(levels[0]), TreeChanges(levels[1..], allowDeletion), allowDeletion);
  }

  lemma {:induction false} ChangesOfLevels(levels: seq<Json>, allowDeletion: bool)
    requires TreeChanges(levels, allowDeletion).Some?
    ensures |TreeChanges(levels, allowDeletion).value| == |levels| && AllSpell(levels)
  {
    if levels != [] {
      var level, more := levels[0], levels[1..];
      FirstChangeOf(levels, allowDeletion);
      assert AllSpell(levels) by {
        ChangesOfLevels(more, allowDeletion);
        AllSpellCons(level, more);
        assert levels == [level] + more;
      }
      ChangesOfLevels(more, allowDeletion);
    }
  }

  predicate AllTrue(flags: seq<bool>) {
    forall i :: 0 <= i < |flags| ==> flags[i]
  }

  /** A side that spells changes has a flag for each of them. */
  lemma {:induction false} OwnFlagsAreTrue(parser: Parser, doc: Json, field: string, allowDeletion: bool)
    requires Faithful(parser) && OwnSide(parser, doc, field, allowDeletion).Some?
    ensures var flags := Flags(parser, PayloadMember(parser, doc, field));
      flags.Some? && AllTrue(flags.value) && |flags.value| == |OwnSide(parser, doc, field, allowDeletion).value|
  {
    var side := PayloadMember(parser, doc, field).value;
    var flags := Flags(parser, Some(side)).value;
    OwnFlagsAllow(parser, side, flags);
    ChangesOfLevels(Levels(side.value), allowDeletion);
    forall i | 0 <= i < |flags| ensures flags[i] {
      assert TreeChange(Levels(side.value)[i]).Some?;
    }
  }

  /** The first array of that name spells exactly these changes. */
  predicate FirstSpells(doc: Json, field: string, changes: seq<Change>, allowDeletion: bool) {
    && FirstArray(doc, field).Some?
    && Spelled(FirstArray(doc, field).value.value, |changes|, allowDeletion) == Some(changes)
  }

  lemma {:induction false} ReadsFirstSide(
      parser: Parser, doc: Json, field: string, changes: seq<Change>, allowDeletion: bool)
    requires Valid(doc) && Faithful(parser) && OwnSide(parser, doc, field, allowDeletion) == Some(changes)
    ensures ReadOf(parser, doc, field, allowDeletion)
      == if FirstArray(doc, field).None? then None
         else Spelled(FirstArray(doc, field).value.value, |changes|, allowDeletion)
  {
    OwnFlagsAreTrue(parser, doc, field, allowDeletion);
    FindMemberArrayIsFirstArray(doc, field);
    if FirstArray(doc, field).Some? {
      ScannerRecoversTokens(doc, field, Flags(parser, PayloadMember(parser, doc, field)).value, allowDeletion);
    }
  }

  /** An accepted batch is accepted from other sides exactly when these are the same; a missing side rejects it. */
  lemma {:induction false} JudgedAlikeIff(
      cfg: AdapterConfig, s: AdapterState, kind: Option<string>, data: BookData, b: Batch,
      asks: Option<seq<Change>>, bids: Option<seq<Change>>)
    requires Judge(cfg, s, kind, Some(data), Complete(b.snapshot, Some(b.asks), Some(b.bids), data)) == Accepted(b)
    ensures var judged := Judge(cfg, s, kind, Some(data), Complete(b.snapshot, asks, bids, data));
      && (judged == Accepted(b) <==> asks == Some(b.asks) && bids == Some(b.bids))
      && (asks == None ==> judged == Rejected)
  {}

  lemma {:induction false} OwnAccepted(parser: Parser, cfg: AdapterConfig, s: AdapterState, doc: Json, b: Batch)
    requires OwnDecision(parser, cfg, s, doc) == Accepted(b)
    ensures doc.Object?
    ensures OwnSide(parser, doc, "asks", !b.snapshot) == Some(b.asks)
    ensures OwnSide(parser, doc, "bids", !b.snapshot) == Some(b.bids)
  {}

  /** Both decisions judge a batch of the accepted kind with the message's own data. */
  lemma {:induction false} DecisionIsJudged(
      parser: Parser, cfg: AdapterConfig, s: AdapterState, doc: Json, b: Batch)
    requires OwnDecision(parser, cfg, s, doc) == Accepted(b)
    ensures var m := ParsedOf(parser, doc);
      && m.BookMessage? && m.data.Some?
      && Judge(cfg, s, m.kind, m.data, Complete(b.snapshot, Some(b.asks), Some(b.bids), m.data.value)) == Accepted(b)
      && Decision(parser, cfg, s, doc) == Judge(
        cfg, s, m.kind, m.data,
        Complete(
          b.snapshot, ReadOf(parser, doc, "asks", !b.snapshot), ReadOf(parser, doc, "bids", !b.snapshot),
          m.data.value))
  {
    OwnAccepted(parser, cfg, s, doc, b);
  }

  lemma {:induction false} DecisionAlikeIff(
      parser: Parser, cfg: AdapterConfig, s: AdapterState, doc: Json, b: Batch)
    requires OwnDecision(parser, cfg, s, doc) == Accepted(b)
    ensures var asks, bids := ReadOf(parser, doc, "asks", !b.snapshot), ReadOf(parser, doc, "bids", !b.snapshot);
      && (Decision(parser, cfg, s, doc) == Accepted(b) <==> asks == Some(b.asks) && bids == Some(b.bids))
      && (asks == None ==> Decision(parser, cfg, s, doc) == Rejected)
  {
    var m := ParsedOf(parser, doc);
    DecisionIsJudged(parser, cfg, s, doc, b);
    JudgedAlikeIff(cfg, s, m.kind, m.data.value, b,
      ReadOf(parser, doc, "asks", !b.snapshot), ReadOf(parser, doc, "bids", !b.snapshot));
  }

  /**
   A message whose own levels deserve to be accepted is accepted with them if and only
   if the first array of either name, wherever it stands, spells the same changes.
   */
  lemma {:induction false} AcceptedAlikeIff(
      parser: Parser, cfg: AdapterConfig, s: AdapterState, doc: Json, b: Batch)
    requires Valid(doc) && Faithful(parser) && OwnDecision(parser, cfg, s, doc) == Accepted(b)
    ensures Decision(parser, cfg, s, doc) == Accepted(b) <==>
      FirstSpells(doc, "asks", b.asks, !b.snapshot) && FirstSpells(doc, "bids", b.bids, !b.snapshot)
  {
    OwnAccepted(parser, cfg, s, doc, b);
    ReadsFirstSide(parser, doc, "asks", b.asks, !b.snapshot);
    ReadsFirstSide(parser, doc, "bids", b.bids, !b.snapshot);
    DecisionAlikeIff(parser, cfg, s, doc, b);
  }

  /** The same message with one more member in front. */
  function Behind(m: Member, doc: Json): Json
    requires doc.Object?
  {
    Object(MoreMembers(m, doc.members))
  }

  lemma {:induction false} MemberBehind(parser: Parser, m: Member, doc: Json, field: string)
    requires doc.Object? && parser.decode(Raw(m.key)) != field
    ensures MemberOf(parser, Behind(m, doc), field) == Shifted(|PrintMember(m)| + 1, MemberOf(parser, doc, field))
  {}

  lemma {:induction false} PayloadBehind(parser: Parser, m: Member, doc: Json, field: string)
    requires doc.Object? && parser.decode(Raw(m.key)) == "asks"
    ensures PayloadMember(parser, Behind(m, doc), field)
      == Shifted(|PrintMember(m)| + 1, PayloadMember(parser, doc, field))
    ensures Payload(parser, Behind(m, doc)) == Shifted(|PrintMember(m)| + 1, Payload(parser, doc))
  {
    MemberBehind(parser, m, doc, "data");
  }

  /** What is read at a spot does not depend on where it is. */
  lemma {:induction false} ReadAnywhere(parser: Parser, n: nat, spot: Option<Spot>)
    ensures TextIn(parser, Shifted(n, spot)) == TextIn(parser, spot)
    ensures NumberIn(parser, Shifted(n, spot)) == NumberIn(parser, spot)
    ensures TimeIn(parser, Shifted(n, spot)) == TimeIn(parser, spot)
    ensures Flags(parser, Shifted(n, spot)) == Flags(parser, spot)
  {}

  lemma {:induction false} PayloadReadBehind(parser: Parser, m: Member, doc: Json, field: string)
    requires doc.Object? && parser.decode(Raw(m.key)) == "asks"
    ensures var there, here := PayloadMember(parser, Behind(m, doc), field), PayloadMember(parser, doc, field);
      && TextIn(parser, there) == TextIn(parser, here) && NumberIn(parser, there) == NumberIn(parser, here)
      && TimeIn(parser, there) == TimeIn(parser, here) && Flags(parser, there) == Flags(parser, here)
  {
    PayloadBehind(parser, m, doc, field);
    ReadAnywhere(parser, |PrintMember(m)| + 1, PayloadMember(parser, doc, field));
  }

  lemma {:induction false} DataBehind(parser: Parser, m: Member, doc: Json)
    requires doc.Object? && parser.decode(Raw(m.key)) == "asks"
    ensures DataOf(parser, Behind(m, doc)) == DataOf(parser, doc)
  {
    PayloadBehind(parser, m, doc, "asks");
    PayloadReadBehind(parser, m, doc, "symbol");
    PayloadReadBehind(parser, m, doc, "asks");
    PayloadReadBehind(parser, m, doc, "bids");
    PayloadReadBehind(parser, m, doc, "checksum");
    PayloadReadBehind(parser, m, doc, "timestamp");
  }

  /** The parsed payload does not notice a further member `asks` of the message. */
  lemma {:induction false} ParsedBehind(parser: Parser, m: Member, doc: Json)
    requires doc.Object? && parser.decode(Raw(m.key)) == "asks"
    ensures ParsedOf(parser, Behind(m, doc)) == ParsedOf(parser, doc)
  {
    DataBehind(parser, m, doc);
    MemberBehind(parser, m, doc, "channel");
    MemberBehind(parser, m, doc, "type");
    ReadAnywhere(parser, |PrintMember(m)| + 1, MemberOf(parser, doc, "channel"));
    ReadAnywhere(parser, |PrintMember(m)| + 1, MemberOf(parser, doc, "type"));
  }

  lemma {:induction false} OwnSideBehind(parser: Parser, m: Member, doc: Json, field: string, allowDeletion: bool)
    requires doc.Object? && parser.decode(Raw(m.key)) == "asks"
    ensures OwnSide(parser, Behind(m, doc), field, allowDeletion) == OwnSide(parser, doc, field, allowDeletion)
  {
    PayloadBehind(parser, m, doc, field);
    ReadAnywhere(parser, |PrintMember(m)| + 1, PayloadMember(parser, doc, field));
  }

  lemma {:induction false} OwnDecisionBehind(parser: Parser, cfg: AdapterConfig, s: AdapterState, m: Member, doc: Json)
    requires doc.Object? && parser.decode(Raw(m.key)) == "asks"
    ensures OwnDecision(parser, cfg, s, Behind(m, doc)) == OwnDecision(parser, cfg, s, doc)
  {
    ParsedBehind(parser, m, doc);
    var snapshot := ParsedOf(parser, doc).BookMessage? && ParsedOf(parser, doc).kind == Some("snapshot");
    OwnSideBehind(parser, m, doc, "asks", !snapshot);
    OwnSideBehind(parser, m, doc, "bids", !snapshot);
  }

  lemma {:induction false} MemberInFrontComesFirst(m: Member, doc: Json, field: string)
    requires doc.Object? && Raw(m.key) == field && m.value.IsArray()
    ensures FirstArray(Behind(m, doc), field) == Some(Spot(1 + ValueOffset(m), m.value))
  {
    assert FirstArrayInMember(m, field) == Some(Spot(ValueOffset(m), m.value));
  }

  /**
   Where this fails: put an array `asks` in front of any message that deserves to be
   accepted, and unless it spells the same changes the payload is not accepted as it
   is; if it spells none, say because it is empty, the book is lost.
   */
  lemma {:induction false} EarlierArrayIsRead(
      parser: Parser, cfg: AdapterConfig, s: AdapterState, m: Member, doc: Json, b: Batch)
    requires Valid(doc) && Faithful(parser) && OwnDecision(parser, cfg, s, doc) == Accepted(b)
    requires ValidMember(m) && Raw(m.key) == "asks" && m.value.IsArray()
    ensures doc.Object? && Valid(Behind(m, doc)) && OwnDecision(parser, cfg, s, Behind(m, doc)) == Accepted(b)
    ensures var spelled, decision := Spelled(m.value, |b.asks|, !b.snapshot), Decision(parser, cfg, s, Behind(m, doc));
      && (spelled != Some(b.asks) ==> decision != Accepted(b))
      && (spelled == None ==> decision == Rejected)
  {
    OwnAccepted(parser, cfg, s, doc, b);
    MemberInFrontComesFirst(m, doc, "asks");
    OwnDecisionBehind(parser, cfg, s, m, doc);
    OwnAccepted(parser, cfg, s, Behind(m, doc), b);
    ReadsFirstSide(parser, Behind(m, doc), "asks", b.asks, !b.snapshot);
    DecisionAlikeIff(parser, cfg, s, Behind(m, doc), b);
  }
}
