/**
 The hand-written lexical scanner of the Kraken adapter. Each routine is a loop
 over positions, proved against a recursive function of the text; `None` stands
 for `std::invalid_argument`. What those functions mean for JSON documents is
 proved in `JsonScannerProofs`.
 */
module JsonScanner {
  import opened Wrappers
  import opened JsonText

  // ---------- skip_space ----------

  function SpaceEnd(text: string, p: nat): (end: nat)
    requires p <= |text|
    ensures p <= end <= |text|
    ensures end < |text| ==> !IsSpace(text[end])
    ensures p < |text| && !IsSpace(text[|text| - 1]) ==> end < |text|
    decreases |text| - p
  {
    if p < |text| && IsSpace(text[p]) then SpaceEnd(text, p + 1) else p
  }

  method SkipSpace(text: string, start: nat) returns (position: nat)
    requires start <= |text|
    ensures position == SpaceEnd(text, start)
  {
    position := start;
    while position < |text| && IsSpace(text[position])
      invariant start <= position <= |text|
      invariant SpaceEnd(text, position) == SpaceEnd(text, start)
    {
      position := position + 1;
    }
  }

  // ---------- string_end ----------

  /** Position after the closing quote, for a position inside a string. */
  function QuoteEnd(text: string, p: nat, escaped: bool): (end: Option<nat>)
    requires p <= |text|
    ensures end.Some? ==> p < end.value <= |text| && text[end.value - 1] == '"'
    decreases |text| - p
  {
    if p == |text| then None
    else if escaped then QuoteEnd(text, p + 1, false)
    else if text[p] == '\\' then QuoteEnd(text, p + 1, true)
    else if text[p] == '"' then Some(p + 1)
    else QuoteEnd(text, p + 1, false)
  }

  method StringEnd(text: string, start: nat) returns (end: Option<nat>)
    ensures end == if start < |text| && text[start] == '"' then QuoteEnd(text, start + 1, false) else None
  {
    if start >= |text| || text[start] != '"' {
      return None;
    }

    var escaped := false;
    var position := start + 1;
    while position < |text|
      invariant start < position <= |text|
      invariant QuoteEnd(text, position, escaped) == QuoteEnd(text, start + 1, false)
    {
      var character := text[position];
      if escaped {
        escaped := false;
      } else if character == '\\' {
        escaped := true;
      } else if character == '"' {
        return Some(position + 1);
      }
      position := position + 1;
    }
    return None;
  }

  // ---------- balanced_end ----------

  function Closer(open: char): char {
    if open == '[' then ']' else '}'
  }

  predicate Opens(text: string, p: nat) {
    p < |text| && (text[p] == '[' || text[p] == '{')
  }

  /** Position after the bracket that empties the stack of expected closers. */
  function StackEnd(text: string, p: nat, expected: seq<char>): (end: Option<nat>)
    requires p <= |text| && expected != []
    ensures end.Some? ==> p < end.value <= |text|
    decreases |text| - p
  {
    if p == |text| then None
    else if text[p] == '"' then
      match QuoteEnd(text, p + 1, false)
      case None => None
      case Some(end) => StackEnd(text, end, expected)
    else if Opens(text, p) then StackEnd(text, p + 1, expected + [Closer(text[p])])
    else if text[p] == ']' || text[p] == '}' then
      if expected[|expected| - 1] != text[p] then None
      else if |expected| == 1 then Some(p + 1)
      else StackEnd(text, p + 1, expected[..|expected| - 1])
    else StackEnd(text, p + 1, expected)
  }

  function ContainerEnd(text: string, p: nat): (end: Option<nat>)
    ensures end.Some? ==> p + 1 < end.value <= |text|
  {
    if Opens(text, p) then StackEnd(text, p + 1, [Closer(text[p])]) else None
  }

  method BalancedEnd(text: string, start: nat) returns (end: Option<nat>)
    ensures end == ContainerEnd(text, start)
  {
    if !Opens(text, start) {
      return None;
    }

    var expected := [Closer(text[start])];
    var position := start + 1;
    while position < |text|
      invariant start < position <= |text|
      invariant expected != []
      invariant StackEnd(text, position, expected) == ContainerEnd(text, start)
    {
      var character := text[position];
      if character == '"' {
        var end := StringEnd(text, position);
        if end.None? {
          return None;
        }
        position := end.value;
        continue;
      }
      if character == '[' || character == '{' {
        expected := expected + [Closer(character)];
      } else if character == ']' || character == '}' {
        if expected[|expected| - 1] != character {
          return None;
        }
        expected := expected[..|expected| - 1];
        if expected == [] {
          return Some(position + 1);
        }
      }
      position := position + 1;
    }
    return None;
  }

  // ---------- find_member_array ----------

  /** Where the array begins, when a colon and an array follow position `p`. */
  function ArrayBegin(text: string, p: nat): (begin: Option<nat>)
    requires p <= |text|
    ensures begin.Some? ==> p < begin.value < |text| && text[begin.value] == '['
  {
    var colon := SpaceEnd(text, p);
    if colon == |text| || text[colon] != ':' then None
    else
      var begin := SpaceEnd(text, colon + 1);
      if begin == |text| || text[begin] != '[' then None else Some(begin)
  }

  /** Where the first array of that name begins, searching from `p`. */
  function FindBegin(text: string, p: nat, field: string): (begin: Option<nat>)
    requires p <= |text|
    ensures begin.Some? ==> begin.value < |text| && text[begin.value] == '['
    decreases |text| - p
  {
    if p == |text| then None
    else if text[p] != '"' then FindBegin(text, p + 1, field)
    else match QuoteEnd(text, p + 1, false)
      case None => None
      case Some(end) =>
        if text[p + 1..end - 1] == field && ArrayBegin(text, end).Some? then ArrayBegin(text, end)
        else FindBegin(text, end, field)
  }

  function ContainerText(text: string, begin: nat): Option<string>
    requires begin < |text|
  {
    match ContainerEnd(text, begin) case None => None case Some(end) => Some(text[begin..end])
  }

  function FindArray(text: string, field: string): Option<string> {
    match FindBegin(text, 0, field) case None => None case Some(begin) => ContainerText(text, begin)
  }

  method FindMemberArray(message: string, field: string) returns (r: Option<string>)
    ensures r == FindArray(message, field)
  {
    var position := 0;
    while position < |message|
      invariant position <= |message|
      invariant FindBegin(message, position, field) == FindBegin(message, 0, field)
    {
      if message[position] != '"' {
        position := position + 1;
        continue;
      }

      var end := StringEnd(message, position);
      if end.None? {
        return None;
      }
      var key := message[position + 1..end.value - 1];
      var value := SkipSpace(message, end.value);

      if key == field && value < |message| && message[value] == ':' {
        value := SkipSpace(message, value + 1);
        if value < |message| && message[value] == '[' {
          var arrayEnd := BalancedEnd(message, value);
          if arrayEnd.None? {
            return None;
          }
          return Some(message[value..arrayEnd.value]);
        }
      }
      position := end.value;
    }
    return None;
  }

  // ---------- split_object_array ----------

  function SplitFrom(list: string, p: nat): Option<seq<string>>
    requires p <= |list|
    decreases |list| - p
  {
    var begin := SpaceEnd(list, p);
    if begin + 1 >= |list| then Some([])
    else if list[begin] != '{' then None
    else match ContainerEnd(list, begin)
      case None => None
      case Some(end) =>
        var next := SpaceEnd(list, end);
        if next < |list| && list[next] == ',' then
          match SplitFrom(list, next + 1)
          case None => None
          case Some(entries) => Some([list[begin..end]] + entries)
        else if next + 1 == |list| then Some([list[begin..end]])
        else None
  }

  function Split(list: string): Option<seq<string>> {
    if |list| < 2 || list[0] != '[' || list[|list| - 1] != ']' then None else SplitFrom(list, 1)
  }

  function Prepend(entries: seq<string>, more: Option<seq<string>>): Option<seq<string>> {
    match more
    case None => None
    case Some(values) => Some(entries + values)
  }

  method SplitObjectArray(list: string) returns (r: Option<seq<string>>)
    ensures r == Split(list)
  {
    if |list| < 2 || list[0] != '[' || list[|list| - 1] != ']' {
      return None;
    }

    var entries: seq<string> := [];
    var position := 1;
    assert forall more: seq<string> :: [] + more == more;
    while true
      invariant 1 <= position <= |list|
      invariant Prepend(entries, SplitFrom(list, position)) == SplitFrom(list, 1)
      decreases |list| - position
    {
      ghost var before, from := entries, position;
      position := SkipSpace(list, position);
      if position >= |list| - 1 {
        assert entries + [] == entries;
        return Some(entries);
      }
      if list[position] != '{' {
        return None;
      }
      var end := BalancedEnd(list, position);
      if end.None? {
        return None;
      }
      entries := entries + [list[position..end.value]];
      position := SkipSpace(list, end.value);
      if position < |list| && list[position] == ',' {
        position := position + 1;
        PrependAppend(before, entries[|before|], SplitFrom(list, position));
        continue;
      }
      if position == |list| - 1 {
        return Some(entries);
      }
      return None;
    }
  }

  lemma {:induction false} PrependAppend(entries: seq<string>, entry: string, more: Option<seq<string>>)
    ensures Prepend(entries + [entry], more) == Prepend(entries, Prepend([entry], more))
  {
    if more.Some? {
      assert entries + [entry] + more.value == entries + ([entry] + more.value);
    }
  }

  // ---------- decimal_member ----------

  predicate EndsScalar(c: char) {
    c == ',' || c == '}' || IsSpace(c)
  }

  function ScalarEnd(text: string, p: nat): (end: nat)
    requires p <= |text|
    ensures p <= end <= |text|
    decreases |text| - p
  {
    if p == |text| || EndsScalar(text[p]) then p else ScalarEnd(text, p + 1)
  }

  /** Position after a member value of any kind. */
  function ValueEnd(text: string, p: nat): (end: Option<nat>)
    requires p < |text|
    ensures end.Some? ==> p <= end.value <= |text|
    ensures end.Some? && (text[p] == '"' || Opens(text, p)) ==> p + 1 < end.value
  {
    if text[p] == '"' then QuoteEnd(text, p + 1, false)
    else if Opens(text, p) then ContainerEnd(text, p)
    else Some(ScalarEnd(text, p))
  }

  /** The decimal a value stands for: a string without backslash, or a bare token. */
  function Token(text: string, begin: nat, end: nat): Option<string>
    requires begin <= end <= |text| && begin < |text|
    requires text[begin] == '"' ==> begin + 1 < end
  {
    if text[begin] == '"' then
      if '\\' in text[begin + 1..end - 1] then None else Some(text[begin + 1..end - 1])
    else if Opens(text, begin) then None
    else Some(text[begin..end])
  }

  /** Where the value begins, when a colon and a value follow position `p`. */
  function ValueBegin(text: string, p: nat): (begin: Option<nat>)
    requires p <= |text|
    ensures begin.Some? ==> p < begin.value < |text|
  {
    var colon := SpaceEnd(text, p);
    if colon == |text| || text[colon] != ':' then None
    else if SpaceEnd(text, colon + 1) == |text| then None
    else Some(SpaceEnd(text, colon + 1))
  }

  function AfterComma(text: string, p: nat): (next: nat)
    requires p <= |text|
    ensures p <= next <= |text|
  {
    var comma := SpaceEnd(text, p);
    if comma < |text| && text[comma] == ',' then comma + 1 else comma
  }

  /** Positions after the key, at the value and after the value. */
  datatype MemberSpan = MemberSpan(keyEnd: nat, begin: nat, end: nat)

  function SpanAt(entry: string, key: nat): (span: Option<MemberSpan>)
    ensures span.Some? ==> key + 1 < span.value.keyEnd < span.value.begin <= span.value.end <= |entry|
    ensures span.Some? ==> entry[key] == '"' && span.value.begin < |entry|
    ensures span.Some? && entry[span.value.begin] == '"' ==> span.value.begin + 1 < span.value.end
  {
    if key >= |entry| || entry[key] != '"' then None
    else match QuoteEnd(entry, key + 1, false)
      case None => None
      case Some(keyEnd) =>
        match ValueBegin(entry, keyEnd)
        case None => None
        case Some(begin) =>
          match ValueEnd(entry, begin)
          case None => None
          case Some(end) => Some(MemberSpan(keyEnd, begin, end))
  }

  predicate ReadsKey(entry: string, key: nat, span: MemberSpan) {
    && key + 1 <= span.keyEnd <= |entry| && entry[key] == '"'
    && QuoteEnd(entry, key + 1, false) == Some(span.keyEnd) && ValueBegin(entry, span.keyEnd) == Some(span.begin)
  }

  predicate ReadsValue(entry: string, span: MemberSpan) {
    span.begin < |entry| && ValueEnd(entry, span.begin) == Some(span.end)
  }

  lemma {:induction false} SpanParts(entry: string, key: nat, span: MemberSpan)
    requires ReadsKey(entry, key, span) && ReadsValue(entry, span)
    ensures SpanAt(entry, key) == Some(span)
  {}

  method ReadValueEnd(text: string, begin: nat) returns (end: Option<nat>)
    requires begin < |text|
    ensures end == ValueEnd(text, begin)
  {
    if text[begin] == '"' {
      end := StringEnd(text, begin);
    } else if text[begin] == '[' || text[begin] == '{' {
      end := BalancedEnd(text, begin);
    } else {
      var scalarEnd := begin;
      while scalarEnd < |text| && !EndsScalar(text[scalarEnd])
        invariant begin <= scalarEnd <= |text|
        invariant ScalarEnd(text, scalarEnd) == ScalarEnd(text, begin)
      {
        scalarEnd := scalarEnd + 1;
      }
      end := Some(scalarEnd);
    }
  }

  method ReadSpan(entry: string, key: nat) returns (span: Option<MemberSpan>)
    ensures span == SpanAt(entry, key)
  {
    var keyEnd := StringEnd(entry, key);
    if keyEnd.None? {
      return None;
    }
    var position := SkipSpace(entry, keyEnd.value);
    if position >= |entry| || entry[position] != ':' {
      return None;
    }
    position := SkipSpace(entry, position + 1);
    if position >= |entry| {
      return None;
    }
    var valueEnd := ReadValueEnd(entry, position);
    if valueEnd.None? {
      return None;
    }
    return Some(MemberSpan(keyEnd.value, position, valueEnd.value));
  }

  function MemberFrom(entry: string, p: nat, requested: string): Option<string>
    requires p <= |entry|
    decreases |entry| - p
  {
    var key := SpaceEnd(entry, p);
    if p + 1 >= |entry| || key + 1 >= |entry| then None
    else match SpanAt(entry, key)
      case None => None
      case Some(span) =>
        if entry[key + 1..span.keyEnd - 1] == requested then Token(entry, span.begin, span.end)
        else MemberFrom(entry, AfterComma(entry, span.end), requested)
  }

  function Either(hit: bool, here: Option<string>, later: Option<string>): Option<string> {
    if hit then here else later
  }

  /** What the loop reads at one member: its span, name, token, and the position behind the comma. */
  predicate Reads(
      entry: string, p: nat, key: nat, span: MemberSpan, name: string, token: Option<string>, next: nat)
  {
    && SpanAt(entry, key) == Some(span)
    && ReadsName(entry, p, key, span, name)
    && ReadsToken(entry, span, token, next)
  }

  predicate ReadsName(entry: string, p: nat, key: nat, span: MemberSpan, name: string) {
    && ReadsKey(entry, key, span) && p + 1 < |entry| && SpaceEnd(entry, p) == key
    && entry[key + 1..span.keyEnd - 1] == name
  }

  predicate ReadsToken(entry: string, span: MemberSpan, token: Option<string>, next: nat) {
    && ReadsValue(entry, span) && Token(entry, span.begin, span.end) == token
    && AfterComma(entry, span.end) == next
  }

  lemma {:induction false} MemberFromStep(
      entry: string, p: nat, key: nat, span: MemberSpan, name: string, token: Option<string>, next: nat,
      requested: string)
    requires Reads(entry, p, key, span, name, token, next)
    ensures next <= |entry|
    ensures MemberFrom(entry, p, requested) == Either(name == requested, token, MemberFrom(entry, next, requested))
  {}

  function EntryMember(entry: string, requested: string): Option<string> {
    if |entry| < 2 || entry[0] != '{' || entry[|entry| - 1] != '}' then None
    else MemberFrom(entry, 1, requested)
  }

  method SkipComma(entry: string, start: nat) returns (position: nat)
    requires start <= |entry|
    ensures position == AfterComma(entry, start)
  {
    position := SkipSpace(entry, start);
    if position < |entry| && entry[position] == ',' {
      position := position + 1;
    }
  }

  method DecimalMember(entry: string, requested: string) returns (r: Option<string>)
    ensures r == EntryMember(entry, requested)
  {
    if |entry| < 2 || entry[0] != '{' || entry[|entry| - 1] != '}' {
      return None;
    }

    var position := 1;
    while position < |entry| - 1
      invariant 1 <= position <= |entry|
      invariant MemberFrom(entry, position, requested) == MemberFrom(entry, 1, requested)
      decreases |entry| - position
    {
      ghost var from := position;
      position := SkipSpace(entry, position);
      if position == |entry| - 1 {
        break;
      }
      var span := ReadSpan(entry, position);
      if span.None? {
        return None;
      }
      var name := entry[position + 1..span.value.keyEnd - 1];
      var token := Token(entry, span.value.begin, span.value.end);
      MemberFromStep(
        entry, from, position, span.value, name, token, AfterComma(entry, span.value.end), requested);
      if name == requested {
        return token;
      }
      position := SkipComma(entry, span.value.end);
    }
    return None;
  }
}
