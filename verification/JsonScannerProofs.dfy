/**
 What the lexical scanner computes on well-formed JSON: container ends, the
 first array member in document order, array elements and member tokens.
 */
module JsonScannerProofs {
  import opened Wrappers
  import opened JsonText
  import opened JsonScanner

  /** `x` is spelled at position `p` of the text. */
  predicate At(text: string, p: nat, x: string) {
    p + |x| <= |text| && forall i {:trigger x[i]} :: 0 <= i < |x| ==> text[p + i] == x[i]
  }

  lemma {:induction false} AtSplit(text: string, p: nat, a: string, b: string)
    requires At(text, p, a + b)
    ensures At(text, p, a) && At(text, p + |a|, b)
    ensures a != "" ==> text[p] == a[0]
  {
    forall i | 0 <= i < |a| ensures text[p + i] == a[i] {
      assert (a + b)[i] == a[i];
    }
    forall i | 0 <= i < |b| ensures text[p + |a| + i] == b[i] {
      assert (a + b)[|a| + i] == b[i];
    }
  }

  lemma {:induction false} AtSlice(text: string, p: nat, x: string)
    requires At(text, p, x)
    ensures text[p..p + |x|] == x
  {}

  // ---------- Strings ----------

  lemma {:induction false} QuoteBody(text: string, p: nat, body: seq<StringUnit>)
    requires ValidBody(body) && At(text, p, Raw(body) + "\"")
    ensures QuoteEnd(text, p, false) == Some(p + |Raw(body)| + 1)
    decreases body
  {
    var x := Raw(body) + "\"";
    if body == [] {
      assert text[p] == x[0];
    } else {
      var unit := match body[0] case Plain(c) => [c] case Escape(c) => ['\\', c];
      assert x == unit + (Raw(body[1..]) + "\"");
      AtSplit(text, p, unit, Raw(body[1..]) + "\"");
      assert text[p] == unit[0];
      if body[0].Escape? {
        assert text[p + 1] == unit[1];
        assert QuoteEnd(text, p, false) == QuoteEnd(text, p + 1, true) == QuoteEnd(text, p + 2, false);
      }
      QuoteBody(text, p + |unit|, body[1..]);
    }
  }

  lemma {:induction false} QuotedParts(text: string, p: nat, body: seq<StringUnit>)
    requires At(text, p, Quoted(body))
    ensures p < |text| && text[p] == '"'
    ensures At(text, p + 1, Raw(body) + "\"")
    ensures At(text, p + 1, Raw(body))
  {
    AtSplit(text, p, "\"", Raw(body) + "\"");
    AtSplit(text, p + 1, Raw(body), "\"");
  }

  /** `string_end` on a quoted string followed by anything. */
  lemma {:induction false} QuotedEnd(text: string, p: nat, body: seq<StringUnit>)
    requires ValidBody(body) && At(text, p, Quoted(body))
    ensures p < |text| && text[p] == '"'
    ensures QuoteEnd(text, p + 1, false) == Some(p + |Quoted(body)|)
    ensures text[p + 1..p + |Quoted(body)| - 1] == Raw(body)
  {
    QuotedParts(text, p, body);
    QuoteBody(text, p + 1, body);
    AtSlice(text, p + 1, Raw(body));
  }

  lemma {:induction false} SpaceRun(text: string, p: nat, ws: string)
    requires Blank(ws) && At(text, p, ws)
    ensures SpaceEnd(text, p) == SpaceEnd(text, p + |ws|)
    decreases ws
  {
    if ws != "" {
      assert ws == ws[..1] + ws[1..];
      AtSplit(text, p, ws[..1], ws[1..]);
      SpaceRun(text, p + 1, ws[1..]);
    }
  }

  // ---------- balanced_end ----------

  predicate Bracket(c: char) {
    c == '[' || c == ']' || c == '{' || c == '}'
  }

  predicate Neutral(s: string) {
    forall i :: 0 <= i < |s| ==> !Bracket(s[i]) && s[i] != '"'
  }

  lemma {:induction false} NeutralRun(text: string, p: nat, s: string, expected: seq<char>)
    requires Neutral(s) && At(text, p, s) && expected != []
    ensures StackEnd(text, p, expected) == StackEnd(text, p + |s|, expected)
    decreases s
  {
    if s != "" {
      assert s == s[..1] + s[1..];
      AtSplit(text, p, s[..1], s[1..]);
      NeutralRun(text, p + 1, s[1..], expected);
    }
  }

  /** A printed value is invisible to the stack scan. */
  lemma {:induction false} ValueRun(text: string, p: nat, v: Json, expected: seq<char>)
    requires Valid(v) && At(text, p, Print(v)) && expected != []
    ensures StackEnd(text, p, expected) == StackEnd(text, p + |Print(v)|, expected)
    decreases v, 2
  {
    match v {
      case Text(body) =>
        QuotedEnd(text, p, body);
      case Scalar(token) =>
        NeutralRun(text, p, token, expected);
      case _ =>
        ContainerRun(text, p, v, expected);
        var inner := expected + [Closer(text[p])];
        assert inner[..|inner| - 1] == expected;
    }
  }

  /** From the opening bracket the scan reaches the closing bracket with its own closer on top. */
  lemma {:induction false} ContainerRun(text: string, p: nat, v: Json, below: seq<char>)
    requires Valid(v) && (v.IsArray() || v.IsObject()) && At(text, p, Print(v))
    ensures Opens(text, p) && text[p] == (if v.IsArray() then '[' else '{')
    ensures |Print(v)| >= 2
    ensures text[p + |Print(v)| - 1] == Closer(text[p])
    ensures StackEnd(text, p + 1, below + [Closer(text[p])])
      == StackEnd(text, p + |Print(v)| - 1, below + [Closer(text[p])])
    decreases v, 1
  {
    ContainerParts(text, p, v);
    InsideRun(text, p + 1, v, below + [Closer(text[p])]);
  }

  lemma {:induction false} InsideRun(text: string, p: nat, v: Json, expected: seq<char>)
    requires Valid(v) && (v.IsArray() || v.IsObject()) && At(text, p, Inside(v)) && expected != []
    ensures StackEnd(text, p, expected) == StackEnd(text, p + |Inside(v)|, expected)
    decreases v, 0
  {
    match v {
      case EmptyArray(ws) => NeutralRun(text, p, ws, expected);
      case EmptyObject(ws) => NeutralRun(text, p, ws, expected);
      case Array(elements) => ElementsRun(text, p, elements, expected);
      case Object(members) => MembersRun(text, p, members, expected);
    }
  }

  lemma {:induction false} ContainerParts(text: string, p: nat, v: Json)
    requires (v.IsArray() || v.IsObject()) && At(text, p, Print(v))
    ensures |Print(v)| == |Inside(v)| + 2
    ensures text[p] == (if v.IsArray() then '[' else '{')
    ensures At(text, p + 1, Inside(v))
    ensures text[p + 1 + |Inside(v)|] == Closer(text[p])
  {
    AtSplit(text, p, Open(v), Inside(v) + Close(v));
    AtSplit(text, p + 1, Inside(v), Close(v));
    assert text[p + 1 + |Inside(v)|] == Close(v)[0];
  }

  lemma {:induction false} ElementParts(text: string, p: nat, es: Elements)
    requires At(text, p, PrintElements(es))
    ensures At(text, p, es.before)
    ensures At(text, p + |es.before|, Print(es.value))
    ensures At(text, p + |es.before| + |Print(es.value)|, es.after)
    ensures At(text, p + ElementLength(es), ElementsTail(es))
    ensures |PrintElements(es)| == ElementLength(es) + |ElementsTail(es)|
  {
    var tail := ElementsTail(es);
    AtSplit(text, p, es.before, Print(es.value) + (es.after + tail));
    AtSplit(text, p + |es.before|, Print(es.value), es.after + tail);
    AtSplit(text, p + |es.before| + |Print(es.value)|, es.after, tail);
  }

  /** Another element follows its comma. */
  lemma {:induction false} NextElements(text: string, p: nat, es: Elements)
    requires es.MoreElements? && At(text, p, ElementsTail(es))
    ensures p < |text| && text[p] == ',' && At(text, p, ",") && At(text, p + 1, PrintElements(es.rest))
    ensures |ElementsTail(es)| == 1 + |PrintElements(es.rest)|
  {
    AtSplit(text, p, ",", PrintElements(es.rest));
  }

  /** A value between two runs of neutral characters. */
  lemma {:induction false} PaddedRun(text: string, p: nat, before: string, v: Json, after: string, expected: seq<char>)
    requires Neutral(before) && Neutral(after) && Valid(v) && expected != []
    requires At(text, p, before) && At(text, p + |before|, Print(v)) && At(text, p + |before| + |Print(v)|, after)
    ensures StackEnd(text, p, expected) == StackEnd(text, p + |before| + |Print(v)| + |after|, expected)
    decreases v, 3
  {
    NeutralRun(text, p, before, expected);
    ValueRun(text, p + |before|, v, expected);
    NeutralRun(text, p + |before| + |Print(v)|, after, expected);
  }

  lemma {:induction false} ElementRun(text: string, p: nat, es: Elements, expected: seq<char>)
    requires ValidElements(es) && At(text, p, PrintElements(es)) && expected != []
    ensures p + ElementLength(es) <= |text|
    ensures StackEnd(text, p, expected) == StackEnd(text, p + ElementLength(es), expected)
    decreases es, 0
  {
    ElementParts(text, p, es);
    PaddedRun(text, p, es.before, es.value, es.after, expected);
  }

  lemma {:induction false} ElementsRun(text: string, p: nat, es: Elements, expected: seq<char>)
    requires ValidElements(es) && At(text, p, PrintElements(es)) && expected != []
    ensures StackEnd(text, p, expected) == StackEnd(text, p + |PrintElements(es)|, expected)
    decreases es, 1
  {
    var q := p + ElementLength(es);
    ElementRun(text, p, es, expected);
    ElementParts(text, p, es);
    if es.MoreElements? {
      NextElements(text, q, es);
      NeutralRun(text, q, ",", expected);
      ElementsRun(text, q + 1, es.rest, expected);
    }
  }

  lemma {:induction false} MembersParts(text: string, p: nat, ms: Members)
    requires At(text, p, PrintMembers(ms))
    ensures At(text, p, PrintMember(ms.member))
    ensures At(text, p + |PrintMember(ms.member)|, MembersTail(ms))
    ensures |PrintMembers(ms)| == |PrintMember(ms.member)| + |MembersTail(ms)|
  {
    AtSplit(text, p, PrintMember(ms.member), MembersTail(ms));
  }

  /** Another member follows its comma. */
  lemma {:induction false} NextMembers(text: string, p: nat, ms: Members)
    requires ms.MoreMembers? && At(text, p, MembersTail(ms))
    ensures p < |text| && text[p] == ',' && At(text, p, ",") && At(text, p + 1, PrintMembers(ms.rest))
    ensures |MembersTail(ms)| == 1 + |PrintMembers(ms.rest)|
  {
    AtSplit(text, p, ",", PrintMembers(ms.rest));
  }

  lemma {:induction false} MemberParts(text: string, p: nat, m: Member)
    requires At(text, p, PrintMember(m))
    ensures At(text, p, m.before)
    ensures At(text, p + KeyOffset(m), Quoted(m.key))
    ensures At(text, p + KeyOffset(m) + |Quoted(m.key)|, m.afterKey)
    ensures At(text, p + ColonOffset(m), ":") && text[p + ColonOffset(m)] == ':'
    ensures At(text, p + ColonOffset(m) + 1, m.beforeValue)
    ensures At(text, p + ValueOffset(m), Print(m.value))
    ensures At(text, p + ValueOffset(m) + |Print(m.value)|, m.after)
    ensures |PrintMember(m)| == ValueOffset(m) + |Print(m.value)| + |m.after|
  {
    var value := Print(m.value) + m.after;
    AtSplit(text, p, m.before, Quoted(m.key) + (m.afterKey + (":" + (m.beforeValue + value))));
    AtSplit(text, p + KeyOffset(m), Quoted(m.key), m.afterKey + (":" + (m.beforeValue + value)));
    AtSplit(text, p + KeyOffset(m) + |Quoted(m.key)|, m.afterKey, ":" + (m.beforeValue + value));
    AtSplit(text, p + ColonOffset(m), ":", m.beforeValue + value);
    AtSplit(text, p + ColonOffset(m) + 1, m.beforeValue, value);
    AtSplit(text, p + ValueOffset(m), Print(m.value), m.after);
  }

  lemma {:induction false} KeyRun(text: string, p: nat, m: Member, expected: seq<char>)
    requires ValidMember(m) && At(text, p, PrintMember(m)) && expected != []
    ensures StackEnd(text, p, expected) == StackEnd(text, p + ColonOffset(m) + 1, expected)
  {
    MemberParts(text, p, m);
    NeutralRun(text, p, m.before, expected);
    QuotedEnd(text, p + KeyOffset(m), m.key);
    NeutralRun(text, p + KeyOffset(m) + |Quoted(m.key)|, m.afterKey, expected);
    NeutralRun(text, p + ColonOffset(m), ":", expected);
  }

  lemma {:induction false} MemberRun(text: string, p: nat, m: Member, expected: seq<char>)
    requires ValidMember(m) && At(text, p, PrintMember(m)) && expected != []
    ensures StackEnd(text, p, expected) == StackEnd(text, p + |PrintMember(m)|, expected)
    decreases m
  {
    MemberParts(text, p, m);
    KeyRun(text, p, m, expected);
    PaddedRun(text, p + ColonOffset(m) + 1, m.beforeValue, m.value, m.after, expected);
  }

  lemma {:induction false} MembersRun(text: string, p: nat, ms: Members, expected: seq<char>)
    requires ValidMembers(ms) && At(text, p, PrintMembers(ms)) && expected != []
    ensures StackEnd(text, p, expected) == StackEnd(text, p + |PrintMembers(ms)|, expected)
    decreases ms
  {
    MembersParts(text, p, ms);
    MemberRun(text, p, ms.member, expected);
    if ms.MoreMembers? {
      var q := p + |PrintMember(ms.member)|;
      NextMembers(text, q, ms);
      NeutralRun(text, q, ",", expected);
      MembersRun(text, q + 1, ms.rest, expected);
    }
  }

  /** `balanced_end` returns exactly the end of a well-formed container, whatever follows it. */
  lemma {:induction false} BalancedEndIsContainerEnd(text: string, p: nat, v: Json)
    requires Valid(v) && (v.IsArray() || v.IsObject()) && At(text, p, Print(v))
    ensures ContainerEnd(text, p) == Some(p + |Print(v)|)
  {
    ContainerRun(text, p, v, []);
    assert [] + [Closer(text[p])] == [Closer(text[p])];
  }

  // ---------- find_member_array ----------

  lemma {:induction false} FirstChar(text: string, p: nat, v: Json)
    requires Valid(v) && At(text, p, Print(v))
    ensures |Print(v)| > 0 && p < |text| && !IsSpace(text[p])
    ensures text[p] == '[' <==> v.IsArray()
    ensures text[p] == '{' <==> v.IsObject()
    ensures text[p] == '"' <==> v.Text?
    ensures !Follows(text[p]) && text[p] != ':'
  {
    match v {
      case Text(body) => QuotedParts(text, p, body);
      case Scalar(token) => assert text[p] == token[0];
      case _ => ContainerParts(text, p, v);
    }
  }

  predicate Closes(c: char) { c == ']' || c == '}' }
  predicate EndsMember(c: char) { c == ',' || c == '}' }
  predicate Follows(c: char) { c == ',' || Closes(c) }

  /** No colon comes next, so a string that ends here is not a member name. */
  predicate NoColon(text: string, q: nat)
    requires q <= |text|
  {
    SpaceEnd(text, q) < |text| ==> text[SpaceEnd(text, q)] != ':'
  }

  lemma {:induction false} NoColonAfter(text: string, q: nat, ws: string)
    requires Blank(ws) && At(text, q, ws)
    requires q + |ws| < |text| && Follows(text[q + |ws|])
    ensures NoColon(text, q)
  {
    SpaceRun(text, q, ws);
  }

  predicate Quoteless(s: string) {
    forall i :: 0 <= i < |s| ==> s[i] != '"'
  }

  lemma {:induction false} FindSkips(text: string, p: nat, s: string, field: string)
    requires Quoteless(s) && At(text, p, s)
    ensures FindBegin(text, p, field) == FindBegin(text, p + |s|, field)
    decreases s
  {
    if s != "" {
      assert s == s[..1] + s[1..];
      AtSplit(text, p, s[..1], s[1..]);
      FindSkips(text, p + 1, s[1..], field);
    }
  }

  /** Searching from `p` either finds the array at its offset or is the same as searching from `q`. */
  predicate Finds(text: string, p: nat, q: nat, field: string, found: Option<Spot>)
    requires p <= |text| && q <= |text|
  {
    FindBegin(text, p, field) == if found.Some? then Some(p + found.value.offset) else FindBegin(text, q, field)
  }

  /** The first array inside a container, counted from behind its opening bracket. */
  function FirstInside(v: Json, field: string): Option<Spot> {
    match v
    case Array(elements) => FirstArrayInElements(elements, field)
    case Object(members) => FirstArrayInMembers(members, field)
    case _ => None
  }

  lemma {:induction false} FindInValue(text: string, p: nat, v: Json, field: string)
    requires Valid(v) && At(text, p, Print(v)) && NoColon(text, p + |Print(v)|)
    ensures Finds(text, p, p + |Print(v)|, field, FirstArray(v, field))
    decreases v, 1
  {
    match v {
      case Text(body) =>
        QuotedEnd(text, p, body);
      case Scalar(token) =>
        FindSkips(text, p, token, field);
      case _ =>
        ContainerParts(text, p, v);
        FindInside(text, p + 1, v, field);
    }
  }

  lemma {:induction false} FindInside(text: string, p: nat, v: Json, field: string)
    requires Valid(v) && (v.IsArray() || v.IsObject())
    requires At(text, p, Inside(v)) && p + |Inside(v)| < |text| && Closes(text[p + |Inside(v)|])
    ensures Finds(text, p, p + |Inside(v)|, field, FirstInside(v, field))
    decreases v, 0
  {
    match v {
      case EmptyArray(ws) => FindSkips(text, p, ws, field);
      case EmptyObject(ws) => FindSkips(text, p, ws, field);
      case Array(elements) => FindInElements(text, p, elements, field);
      case Object(members) => FindInMembers(text, p, members, field);
    }
  }

  lemma {:induction false} FindInElement(text: string, p: nat, es: Elements, field: string)
    requires ValidElements(es) && At(text, p, PrintElements(es))
    requires p + ElementLength(es) < |text| && Follows(text[p + ElementLength(es)])
    ensures Finds(text, p, p + ElementLength(es), field, Shifted(|es.before|, FirstArray(es.value, field)))
    decreases es, 0
  {
    ElementParts(text, p, es);
    var begin := p + |es.before|;
    FindSkips(text, p, es.before, field);
    NoColonAfter(text, begin + |Print(es.value)|, es.after);
    FindInValue(text, begin, es.value, field);
    FindSkips(text, begin + |Print(es.value)|, es.after, field);
  }

  lemma {:induction false} FindInElements(text: string, p: nat, es: Elements, field: string)
    requires ValidElements(es) && At(text, p, PrintElements(es))
    requires p + |PrintElements(es)| < |text| && Closes(text[p + |PrintElements(es)|])
    ensures Finds(text, p, p + |PrintElements(es)|, field, FirstArrayInElements(es, field))
    decreases es, 1
  {
    var q := p + ElementLength(es);
    ElementParts(text, p, es);
    if es.MoreElements? {
      NextElements(text, q, es);
      FindInElement(text, p, es, field);
      FindSkips(text, q, ",", field);
      FindInElements(text, q + 1, es.rest, field);
    } else {
      FindInElement(text, p, es, field);
    }
  }

  /** A member's value begins where the scanner looks for the array. */
  lemma {:induction false} ValueBegins(text: string, p: nat, m: Member)
    requires ValidMember(m) && At(text, p, PrintMember(m))
    ensures ValueBegin(text, p + KeyOffset(m) + |Quoted(m.key)|) == Some(p + ValueOffset(m))
    ensures ArrayBegin(text, p + KeyOffset(m) + |Quoted(m.key)|)
      == if m.value.IsArray() then Some(p + ValueOffset(m)) else None
  {
    MemberParts(text, p, m);
    SpaceRun(text, p + KeyOffset(m) + |Quoted(m.key)|, m.afterKey);
    SpaceRun(text, p + ColonOffset(m) + 1, m.beforeValue);
    FirstChar(text, p + ValueOffset(m), m.value);
  }

  lemma {:induction false} KeyOfMember(entry: string, p: nat, m: Member)
    requires ValidMember(m) && At(entry, p, PrintMember(m))
    ensures p + KeyOffset(m) + 1 < p + KeyEnd(m) <= |entry|
    ensures SpaceEnd(entry, p) == p + KeyOffset(m) && entry[p + KeyOffset(m)] == '"'
    ensures QuoteEnd(entry, p + KeyOffset(m) + 1, false) == Some(p + KeyEnd(m))
    ensures entry[p + KeyOffset(m) + 1..p + KeyEnd(m) - 1] == Raw(m.key)
    ensures ValueBegin(entry, p + KeyEnd(m)) == Some(p + ValueOffset(m))
  {
    MemberParts(entry, p, m);
    SpaceRun(entry, p, m.before);
    QuotedEnd(entry, p + KeyOffset(m), m.key);
    ValueBegins(entry, p, m);
  }

  lemma {:induction false} FindStep(text: string, p: nat, end: nat, begin: Option<nat>, field: string)
    requires p < |text| && text[p] == '"' && QuoteEnd(text, p + 1, false) == Some(end)
    requires ArrayBegin(text, end) == begin
    ensures FindBegin(text, p, field)
      == if text[p + 1..end - 1] == field && begin.Some? then begin else FindBegin(text, end, field)
  {}

  /** One step of the search at a member name. */
  lemma {:induction false} FindStepAtKey(text: string, p: nat, m: Member, field: string)
    requires ValidMember(m) && At(text, p, PrintMember(m))
    ensures p + KeyEnd(m) <= |text|
    ensures FindBegin(text, p + KeyOffset(m), field)
      == if Raw(m.key) == field && m.value.IsArray() then Some(p + ValueOffset(m))
         else FindBegin(text, p + KeyEnd(m), field)
  {
    KeyOfMember(text, p, m);
    ValueBegins(text, p, m);
    FindStep(
      text, p + KeyOffset(m), p + KeyEnd(m), if m.value.IsArray() then Some(p + ValueOffset(m)) else None, field);
  }

  lemma {:induction false} FindFromKeyToValue(text: string, p: nat, m: Member, field: string)
    requires ValidMember(m) && At(text, p, PrintMember(m))
    ensures p + ValueOffset(m) <= |text|
    ensures FindBegin(text, p + KeyEnd(m), field) == FindBegin(text, p + ValueOffset(m), field)
  {
    MemberParts(text, p, m);
    FindSkips(text, p + KeyEnd(m), m.afterKey, field);
    FindSkips(text, p + ColonOffset(m), ":", field);
    FindSkips(text, p + ColonOffset(m) + 1, m.beforeValue, field);
  }

  /** The search from the start of a member: its own array, or what comes from its value on. */
  lemma {:induction false} FindAtMember(text: string, p: nat, m: Member, field: string)
    requires ValidMember(m) && At(text, p, PrintMember(m))
    ensures p + ValueOffset(m) <= |text|
    ensures FindBegin(text, p, field)
      == if Raw(m.key) == field && m.value.IsArray() then Some(p + ValueOffset(m))
         else FindBegin(text, p + ValueOffset(m), field)
  {
    MemberParts(text, p, m);
    FindStepAtKey(text, p, m, field);
    FindSkips(text, p, m.before, field);
    FindFromKeyToValue(text, p, m, field);
  }

  lemma {:induction false} FindInMember(text: string, p: nat, m: Member, field: string)
    requires ValidMember(m) && At(text, p, PrintMember(m))
    requires p + |PrintMember(m)| < |text| && Follows(text[p + |PrintMember(m)|])
    ensures Finds(text, p, p + |PrintMember(m)|, field, FirstArrayInMember(m, field))
    decreases m, 2
  {
    FindAtMember(text, p, m, field);
    if !(Raw(m.key) == field && m.value.IsArray()) {
      FindInMemberValue(text, p, m, field);
    }
  }

  lemma {:induction false} FindInMemberValue(text: string, p: nat, m: Member, field: string)
    requires ValidMember(m) && At(text, p, PrintMember(m))
    requires p + |PrintMember(m)| < |text| && Follows(text[p + |PrintMember(m)|])
    ensures p + ValueOffset(m) <= |text|
    ensures Finds(text, p + ValueOffset(m), p + |PrintMember(m)|, field, FirstArray(m.value, field))
    decreases m, 1
  {
    MemberParts(text, p, m);
    var end := p + ValueOffset(m) + |Print(m.value)|;
    NoColonAfter(text, end, m.after);
    FindInValue(text, p + ValueOffset(m), m.value, field);
    FindSkips(text, end, m.after, field);
  }

  lemma {:induction false} FindInMembers(text: string, p: nat, ms: Members, field: string)
    requires ValidMembers(ms) && At(text, p, PrintMembers(ms))
    requires p + |PrintMembers(ms)| < |text| && Closes(text[p + |PrintMembers(ms)|])
    ensures Finds(text, p, p + |PrintMembers(ms)|, field, FirstArrayInMembers(ms, field))
    decreases ms
  {
    MembersParts(text, p, ms);
    var q := p + |PrintMember(ms.member)|;
    if ms.MoreMembers? {
      NextMembers(text, q, ms);
      FindInMember(text, p, ms.member, field);
      FindSkips(text, q, ",", field);
      FindInMembers(text, q + 1, ms.rest, field);
    } else {
      FindInMember(text, p, ms.member, field);
    }
  }

  lemma {:induction false} AtWhole(x: string)
    ensures At(x, 0, x)
  {}

  lemma {:induction false} SpotInValue(text: string, p: nat, v: Json, field: string)
    requires Valid(v) && At(text, p, Print(v)) && FirstArray(v, field).Some?
    ensures var spot := FirstArray(v, field).value;
      At(text, p + spot.offset, Print(spot.value)) && Valid(spot.value) && spot.value.IsArray()
    decreases v
  {
    ContainerParts(text, p, v);
    match v {
      case Array(elements) => SpotInElements(text, p + 1, elements, field);
      case Object(members) => SpotInMembers(text, p + 1, members, field);
    }
  }

  lemma {:induction false} SpotInElements(text: string, p: nat, es: Elements, field: string)
    requires ValidElements(es) && At(text, p, PrintElements(es)) && FirstArrayInElements(es, field).Some?
    ensures var spot := FirstArrayInElements(es, field).value;
      At(text, p + spot.offset, Print(spot.value)) && Valid(spot.value) && spot.value.IsArray()
    decreases es
  {
    ElementParts(text, p, es);
    if FirstArray(es.value, field).Some? {
      SpotInValue(text, p + |es.before|, es.value, field);
    } else {
      NextElements(text, p + ElementLength(es), es);
      SpotInElements(text, p + ElementLength(es) + 1, es.rest, field);
    }
  }

  lemma {:induction false} SpotInMembers(text: string, p: nat, ms: Members, field: string)
    requires ValidMembers(ms) && At(text, p, PrintMembers(ms)) && FirstArrayInMembers(ms, field).Some?
    ensures var spot := FirstArrayInMembers(ms, field).value;
      At(text, p + spot.offset, Print(spot.value)) && Valid(spot.value) && spot.value.IsArray()
    decreases ms, 1
  {
    MembersParts(text, p, ms);
    if FirstArrayInMember(ms.member, field).Some? {
      SpotInMember(text, p, ms.member, field);
    } else {
      var q := p + |PrintMember(ms.member)|;
      NextMembers(text, q, ms);
      SpotInMembers(text, q + 1, ms.rest, field);
    }
  }

  lemma {:induction false} SpotInMember(text: string, p: nat, m: Member, field: string)
    requires ValidMember(m) && At(text, p, PrintMember(m)) && FirstArrayInMember(m, field).Some?
    ensures var spot := FirstArrayInMember(m, field).value;
      At(text, p + spot.offset, Print(spot.value)) && Valid(spot.value) && spot.value.IsArray()
    decreases m
  {
    MemberParts(text, p, m);
    if !(Raw(m.key) == field && m.value.IsArray()) {
      SpotInValue(text, p + ValueOffset(m), m.value, field);
    }
  }

  /** A printed container is the text the scanner cuts out at its offset. */
  lemma {:induction false} TextAtSpot(text: string, spot: Spot)
    requires Valid(spot.value) && (spot.value.IsArray() || spot.value.IsObject())
    requires At(text, spot.offset, Print(spot.value))
    ensures spot.offset < |text| && ContainerText(text, spot.offset) == Some(Print(spot.value))
  {
    BalancedEndIsContainerEnd(text, spot.offset, spot.value);
    AtSlice(text, spot.offset, Print(spot.value));
  }

  /**
   On every well-formed document `find_member_array` returns the text of the first
   array member of that name in document order, where that member stands, and fails
   when there is none.
   */
  lemma {:induction false} FindMemberArrayIsFirstArray(doc: Json, field: string)
    requires Valid(doc)
    ensures var first := FirstArray(doc, field);
      && FindBegin(Print(doc), 0, field) == (if first.Some? then Some(first.value.offset) else None)
      && FindArray(Print(doc), field) == (if first.Some? then Some(Print(first.value.value)) else None)
  {
    AtWhole(Print(doc));
    FindInValue(Print(doc), 0, doc, field);
    if FirstArray(doc, field).Some? {
      SpotInValue(Print(doc), 0, doc, field);
      TextAtSpot(Print(doc), FirstArray(doc, field).value);
    }
  }

  // ---------- split_object_array ----------

  function PrintAll(values: seq<Json>): seq<string> {
    if values == [] then [] else [Print(values[0])] + PrintAll(values[1..])
  }

  function Printed(values: Option<seq<Json>>): Option<seq<string>> {
    match values case None => None case Some(vs) => Some(PrintAll(vs))
  }

  /** Where the scanner stands around one element of the array. */
  lemma {:induction false} ElementStep(list: string, p: nat, es: Elements)
    requires ValidElements(es) && At(list, p, PrintElements(es))
    requires p + |PrintElements(es)| + 1 == |list| && list[|list| - 1] == ']'
    ensures var begin := p + |es.before|;
      && SpaceEnd(list, p) == begin && begin + 1 < |list|
      && (list[begin] == '{' <==> es.value.IsObject())
      && SpaceEnd(list, begin + |Print(es.value)|) == p + ElementLength(es)
      && (es.value.IsObject() ==> ContainerEnd(list, begin) == Some(begin + |Print(es.value)|))
      && list[begin..begin + |Print(es.value)|] == Print(es.value)
  {
    ElementParts(list, p, es);
    var begin := p + |es.before|;
    SpaceRun(list, p, es.before);
    FirstChar(list, begin, es.value);
    SpaceRun(list, begin + |Print(es.value)|, es.after);
    if es.MoreElements? {
      NextElements(list, p + ElementLength(es), es);
    }
    if es.value.IsObject() {
      BalancedEndIsContainerEnd(list, begin, es.value);
    }
    AtSlice(list, begin, Print(es.value));
  }

  lemma {:induction false} SplitStep(list: string, p: nat, begin: nat, end: nat, next: nat)
    requires p <= |list| && SpaceEnd(list, p) == begin && begin + 1 < |list| && list[begin] == '{'
    requires ContainerEnd(list, begin) == Some(end) && SpaceEnd(list, end) == next
    ensures next + 1 == |list| && list[next] != ',' ==> SplitFrom(list, p) == Some([list[begin..end]])
    ensures next < |list| && list[next] == ',' ==>
      SplitFrom(list, p) == Prepend([list[begin..end]], SplitFrom(list, next + 1))
  {}

  lemma {:induction false} SplitElements(list: string, p: nat, es: Elements)
    requires ValidElements(es) && At(list, p, PrintElements(es))
    requires p + |PrintElements(es)| + 1 == |list| && list[|list| - 1] == ']'
    ensures SplitFrom(list, p) == Printed(ObjectElements(es))
    decreases es
  {
    var begin, next := p + |es.before|, p + ElementLength(es);
    ElementStep(list, p, es);
    PrintedElements(es);
    if es.value.IsObject() {
      SplitStep(list, p, begin, begin + |Print(es.value)|, next);
      ElementParts(list, p, es);
      if es.MoreElements? {
        NextElements(list, next, es);
        SplitElements(list, next + 1, es.rest);
      }
    }
  }

  lemma {:induction false} PrintedElements(es: Elements)
    ensures Printed(ObjectElements(es))
      == if !es.value.IsObject() then None
         else if es.LastElement? then Some([Print(es.value)])
         else Prepend([Print(es.value)], Printed(ObjectElements(es.rest)))
  {
    if es.value.IsObject() {
      if es.LastElement? {
        var values := [es.value];
        assert values[1..] == [];
        assert ObjectElements(es) == Some(values);
        assert PrintAll(values) == [Print(es.value)];
      } else if ObjectElements(es.rest).Some? {
        var more := ObjectElements(es.rest).value;
        var values := [es.value] + more;
        assert ObjectElements(es) == Some(values);
        assert values[1..] == more && values[0] == es.value;
        assert PrintAll(values) == [Print(es.value)] + PrintAll(more);
      }
    }
  }

  /** `split_object_array` on a printed array yields its printed elements, and fails unless all are objects. */
  lemma {:induction false} SplitIsObjectElements(v: Json)
    requires Valid(v) && v.IsArray()
    ensures Split(Print(v)) == Printed(ArrayOfObjects(v))
  {
    var list := Print(v);
    AtWhole(list);
    ContainerParts(list, 0, v);
    match v {
      case EmptyArray(ws) =>
        SpaceRun(list, 1, ws);
      case Array(elements) =>
        SplitElements(list, 1, elements);
    }
  }

  // ---------- decimal_member ----------

  lemma {:induction false} ScalarRun(text: string, p: nat, token: string)
    requires At(text, p, token) && forall i :: 0 <= i < |token| ==> !EndsScalar(token[i])
    ensures ScalarEnd(text, p) == ScalarEnd(text, p + |token|)
    decreases token
  {
    if token != "" {
      assert token == token[..1] + token[1..];
      AtSplit(text, p, token[..1], token[1..]);
      ScalarRun(text, p + 1, token[1..]);
    }
  }

  lemma {:induction false} ValueEnds(text: string, p: nat, v: Json)
    requires Valid(v) && At(text, p, Print(v))
    requires p + |Print(v)| < |text| && EndsScalar(text[p + |Print(v)|])
    ensures ValueEnd(text, p) == Some(p + |Print(v)|)
    ensures Token(text, p, p + |Print(v)|) == DecimalToken(v)
  {
    FirstChar(text, p, v);
    AtSlice(text, p, Print(v));
    match v {
      case Text(body) => QuotedEnd(text, p, body);
      case Scalar(token) => ScalarRun(text, p, token);
      case _ => BalancedEndIsContainerEnd(text, p, v);
    }
  }

  function TokenOfMember(found: Option<Json>): Option<string> {
    match found case None => None case Some(v) => DecimalToken(v)
  }

  function NextMember(entry: string, q: nat): nat
    requires q < |entry|
  {
    if entry[q] == ',' then q + 1 else q
  }

  lemma {:induction false} ValueOfMember(entry: string, p: nat, m: Member)
    requires ValidMember(m) && At(entry, p, PrintMember(m))
    requires p + |PrintMember(m)| < |entry| && EndsMember(entry[p + |PrintMember(m)|])
    ensures var begin, end := p + ValueOffset(m), p + ValueOffset(m) + |Print(m.value)|;
      begin < end < |entry| && ValueEnd(entry, begin) == Some(end) && Token(entry, begin, end) == DecimalToken(m.value)
  {
    MemberParts(entry, p, m);
    var end := p + ValueOffset(m) + |Print(m.value)|;
    if m.after != "" {
      assert entry[end] == m.after[0];
    }
    FirstChar(entry, p + ValueOffset(m), m.value);
    ValueEnds(entry, p + ValueOffset(m), m.value);
  }

  lemma {:induction false} AfterMember(entry: string, p: nat, m: Member)
    requires ValidMember(m) && At(entry, p, PrintMember(m))
    requires p + |PrintMember(m)| < |entry| && EndsMember(entry[p + |PrintMember(m)|])
    ensures p + ValueOffset(m) + |Print(m.value)| <= |entry|
    ensures AfterComma(entry, p + ValueOffset(m) + |Print(m.value)|) == NextMember(entry, p + |PrintMember(m)|)
  {
    MemberParts(entry, p, m);
    SpaceRun(entry, p + ValueOffset(m) + |Print(m.value)|, m.after);
  }

  function SpanOf(p: nat, m: Member): MemberSpan {
    MemberSpan(p + KeyEnd(m), p + ValueOffset(m), p + ValueOffset(m) + |Print(m.value)|)
  }

  lemma {:induction false} SpanOfMember(entry: string, p: nat, m: Member)
    requires ValidMember(m) && At(entry, p, PrintMember(m))
    requires p + |PrintMember(m)| < |entry| && EndsMember(entry[p + |PrintMember(m)|])
    ensures SpanAt(entry, p + KeyOffset(m)) == Some(SpanOf(p, m))
  {
    assert ReadsKey(entry, p + KeyOffset(m), SpanOf(p, m)) by {
      KeyOfMember(entry, p, m);
    }
    assert ReadsValue(entry, SpanOf(p, m)) by {
      ValueOfMember(entry, p, m);
    }
    SpanParts(entry, p + KeyOffset(m), SpanOf(p, m));
  }

  /** Everything the member loop looks at in one turn. */
  lemma {:induction false} MemberTurn(entry: string, p: nat, m: Member)
    requires ValidMember(m) && At(entry, p, PrintMember(m))
    requires p + |PrintMember(m)| < |entry| && EndsMember(entry[p + |PrintMember(m)|])
    ensures Reads(
      entry, p, p + KeyOffset(m), SpanOf(p, m), Raw(m.key), DecimalToken(m.value),
      NextMember(entry, p + |PrintMember(m)|))
  {
    SpanOfMember(entry, p, m);
    assert ReadsName(entry, p, p + KeyOffset(m), SpanOf(p, m), Raw(m.key)) by {
      KeyOfMember(entry, p, m);
    }
    assert ReadsToken(entry, SpanOf(p, m), DecimalToken(m.value), NextMember(entry, p + |PrintMember(m)|)) by {
      ValueOfMember(entry, p, m);
      AfterMember(entry, p, m);
    }
  }

  lemma {:induction false} MemberFromOne(entry: string, p: nat, m: Member, requested: string)
    requires ValidMember(m) && At(entry, p, PrintMember(m))
    requires p + |PrintMember(m)| < |entry| && EndsMember(entry[p + |PrintMember(m)|])
    ensures MemberFrom(entry, p, requested)
      == Either(
        Raw(m.key) == requested, DecimalToken(m.value),
        MemberFrom(entry, NextMember(entry, p + |PrintMember(m)|), requested))
  {
    MemberTurn(entry, p, m);
    MemberFromStep(
      entry, p, p + KeyOffset(m), SpanOf(p, m), Raw(m.key), DecimalToken(m.value),
      NextMember(entry, p + |PrintMember(m)|), requested);
  }

  lemma {:induction false} NoMoreMembers(entry: string, q: nat, requested: string)
    requires q + 1 == |entry|
    ensures MemberFrom(entry, q, requested) == None
  {}

  lemma {:induction false} MemberFromMembers(entry: string, p: nat, ms: Members, requested: string)
    requires ValidMembers(ms) && At(entry, p, PrintMembers(ms))
    requires p + |PrintMembers(ms)| + 1 == |entry| && entry[|entry| - 1] == '}'
    ensures MemberFrom(entry, p, requested) == TokenOfMember(MemberValue(ms, requested))
    decreases ms
  {
    var m := ms.member;
    var q := p + |PrintMember(m)|;
    MembersParts(entry, p, ms);
    assert q < |entry| && entry[q] == (if ms.MoreMembers? then ',' else '}') by {
      if ms.MoreMembers? {
        NextMembers(entry, q, ms);
      }
    }
    MemberFromOne(entry, p, m, requested);
    if ms.MoreMembers? {
      assert At(entry, q + 1, PrintMembers(ms.rest)) by {
        NextMembers(entry, q, ms);
      }
      MemberFromMembers(entry, q + 1, ms.rest, requested);
    } else {
      NoMoreMembers(entry, q, requested);
    }
  }

  /**
   `decimal_member` on a printed object returns the token of the first member of that
   name unchanged, and fails when it is missing, a container, or an escaped string.
   */
  lemma {:induction false} DecimalMemberIsMemberToken(v: Json, requested: string)
    requires Valid(v) && v.IsObject()
    ensures EntryMember(Print(v), requested)
      == if v.Object? then TokenOfMember(MemberValue(v.members, requested)) else None
  {
    var entry := Print(v);
    AtWhole(entry);
    ContainerParts(entry, 0, v);
    match v {
      case EmptyObject(ws) =>
        SpaceRun(entry, 1, ws);
      case Object(members) =>
        MemberFromMembers(entry, 1, members, requested);
    }
  }
}
