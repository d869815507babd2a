/**
 JSON documents as trees that remember their own spelling: string bodies with
 escapes (RFC 8259 section 7), scalar tokens, and the insignificant whitespace
 around every structural character (RFC 8259 section 2). Printing a tree gives
 back exactly one wire text.
 */
module JsonText {
  import opened Wrappers

  /** One unit of a string body. `\u` escapes are an escape of 'u' followed by plain characters. */
  datatype StringUnit = Plain(c: char) | Escape(c: char)

  datatype Json =
    | Text(body: seq<StringUnit>)
    | Scalar(token: string)
    | EmptyArray(inside: string)
    | Array(elements: Elements)
    | EmptyObject(inside: string)
    | Object(members: Members)
  {
    predicate IsArray() {
      EmptyArray? || Array?
    }

    predicate IsObject() {
      EmptyObject? || Object?
    }
  }

  datatype Elements =
    | LastElement(before: string, value: Json, after: string)
    | MoreElements(before: string, value: Json, after: string, rest: Elements)

  datatype Members =
    | LastMember(member: Member)
    | MoreMembers(member: Member, rest: Members)

  datatype Member = Member(
    before: string, key: seq<StringUnit>, afterKey: string,
    beforeValue: string, value: Json, after: string)

  /** `std::isspace` in the C locale; it contains the four JSON whitespace characters. */
  predicate IsSpace(c: char) {
    c == ' ' || c == '\t' || c == '\n' || c == '\r' || c == '\U{0B}' || c == '\U{0C}'
  }

  predicate Blank(s: string) {
    forall i :: 0 <= i < |s| ==> IsSpace(s[i])
  }

  predicate Structural(c: char) {
    c == '[' || c == ']' || c == '{' || c == '}' || c == ':' || c == ',' || c == '"'
  }

  predicate ValidBody(body: seq<StringUnit>) {
    forall i :: 0 <= i < |body| && body[i].Plain? ==> body[i].c != '"' && body[i].c != '\\'
  }

  predicate ValidToken(token: string) {
    token != "" && forall i :: 0 <= i < |token| ==> !Structural(token[i]) && !IsSpace(token[i])
  }

  predicate Valid(v: Json) {
    match v
    case Text(body) => ValidBody(body)
    case Scalar(token) => ValidToken(token)
    case EmptyArray(inside) => Blank(inside)
    case Array(elements) => ValidElements(elements)
    case EmptyObject(inside) => Blank(inside)
    case Object(members) => ValidMembers(members)
  }

  predicate ValidElements(es: Elements) {
    && Blank(es.before) && Valid(es.value) && Blank(es.after)
    && (es.MoreElements? ==> ValidElements(es.rest))
  }

  predicate ValidMembers(ms: Members) {
    && ValidMember(ms.member)
    && (ms.MoreMembers? ==> ValidMembers(ms.rest))
  }

  predicate ValidMember(m: Member) {
    && Blank(m.before) && ValidBody(m.key) && Blank(m.afterKey)
    && Blank(m.beforeValue) && Valid(m.value) && Blank(m.after)
  }

  function Raw(body: seq<StringUnit>): string {
    if body == [] then ""
    else (match body[0] case Plain(c) => [c] case Escape(c) => ['\\', c]) + Raw(body[1..])
  }

  function Quoted(body: seq<StringUnit>): string {
    "\"" + (Raw(body) + "\"")
  }

  function Print(v: Json): string
    decreases v, 1
  {
    match v
    case Text(body) => Quoted(body)
    case Scalar(token) => token
    case _ => Open(v) + (Inside(v) + Close(v))
  }

  function Open(v: Json): string {
    if v.IsArray() then "[" else "{"
  }

  function Close(v: Json): string {
    if v.IsArray() then "]" else "}"
  }

  /** What stands between the brackets of a container. */
  function Inside(v: Json): string
    requires v.IsArray() || v.IsObject()
    decreases v, 0
  {
    match v
    case EmptyArray(ws) => ws
    case EmptyObject(ws) => ws
    case Array(elements) => PrintElements(elements)
    case Object(members) => PrintMembers(members)
  }

  function PrintElements(es: Elements): string
    decreases es, 1
  {
    es.before + (Print(es.value) + (es.after + ElementsTail(es)))
  }

  function ElementsTail(es: Elements): string
    decreases es, 0
  {
    match es case LastElement(_, _, _) => "" case MoreElements(_, _, _, rest) => "," + PrintElements(rest)
  }

  function PrintMembers(ms: Members): string
    decreases ms, 1
  {
    PrintMember(ms.member) + MembersTail(ms)
  }

  function MembersTail(ms: Members): string
    decreases ms, 0
  {
    match ms case LastMember(_) => "" case MoreMembers(_, rest) => "," + PrintMembers(rest)
  }

  function PrintMember(m: Member): string
    decreases m
  {
    m.before + (Quoted(m.key) + (m.afterKey + (":" + (m.beforeValue + (Print(m.value) + m.after)))))
  }

  /** Offsets of the parts of a printed member, and the length of a printed element without what follows it. */
  function KeyOffset(m: Member): nat { |m.before| }
  function KeyEnd(m: Member): nat { |m.before| + |Quoted(m.key)| }
  function ColonOffset(m: Member): nat { KeyEnd(m) + |m.afterKey| }
  function ValueOffset(m: Member): nat { ColonOffset(m) + 1 + |m.beforeValue| }

  function ElementLength(es: Elements): nat {
    |es.before| + |Print(es.value)| + |es.after|
  }

  // ---------- Questions about the tree ----------

  /** A value of the document and where its text begins. */
  datatype Spot = Spot(offset: nat, value: Json)

  function Shifted(n: nat, spot: Option<Spot>): Option<Spot> {
    match spot case None => None case Some(at) => Some(Spot(n + at.offset, at.value))
  }

  /** First member, in document order, whose raw key is `field` and whose value is an array. */
  function FirstArray(v: Json, field: string): Option<Spot> {
    match v
    case Array(elements) => Shifted(1, FirstArrayInElements(elements, field))
    case Object(members) => Shifted(1, FirstArrayInMembers(members, field))
    case _ => None
  }

  function FirstArrayInElements(es: Elements, field: string): Option<Spot> {
    var here := Shifted(|es.before|, FirstArray(es.value, field));
    if here.Some? || es.LastElement? then here
    else Shifted(ElementLength(es) + 1, FirstArrayInElements(es.rest, field))
  }

  function FirstArrayInMembers(ms: Members, field: string): Option<Spot> {
    var here := FirstArrayInMember(ms.member, field);
    if here.Some? || ms.LastMember? then here
    else Shifted(|PrintMember(ms.member)| + 1, FirstArrayInMembers(ms.rest, field))
  }

  function FirstArrayInMember(m: Member, field: string): Option<Spot> {
    if Raw(m.key) == field && m.value.IsArray() then Some(Spot(ValueOffset(m), m.value))
    else Shifted(ValueOffset(m), FirstArray(m.value, field))
  }

  /** The elements of an array, provided all of them are objects. */
  function ObjectElements(es: Elements): Option<seq<Json>> {
    if !es.value.IsObject() then None
    else match es
      case LastElement(_, value, _) => Some([value])
      case MoreElements(_, value, _, rest) =>
        match ObjectElements(rest)
        case None => None
        case Some(values) => Some([value] + values)
  }

  function ArrayOfObjects(v: Json): Option<seq<Json>> {
    match v
    case EmptyArray(_) => Some([])
    case Array(elements) => ObjectElements(elements)
    case _ => None
  }

  /** Value of the first member of an object with the raw key `field`. */
  function MemberValue(ms: Members, field: string): Option<Json> {
    if Raw(ms.member.key) == field then Some(ms.member.value)
    else if ms.LastMember? then None
    else MemberValue(ms.rest, field)
  }

  /** The token a decimal member stands for: a bare scalar, or a string without escapes. */
  function DecimalToken(v: Json): Option<string> {
    match v
    case Scalar(token) => Some(token)
    case Text(body) => if '\\' in Raw(body) then None else Some(Raw(body))
    case _ => None
  }
}
