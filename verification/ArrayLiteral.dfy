/** arrays.py: the array literal printer and its recursive-descent parser. Elements are the texts the
    scalar codecs print, so a value is a nested list of strings and NULLs. */
module ArrayLiteral {
  import opened Prelude
  import opened Text
  import opened Arrays

  type Item = Node<string>

  // ---- Characters ----

  /** The characters that force quotes. */
  predicate Special(c: char) {
    c in {'{', '}', ',', '"', '\\', ' ', '\t', '\n', '\r', 11 as char, 12 as char}
  }

  predicate Stop(c: char) {
    c == ',' || c == '}'
  }

  predicate IsNull(s: string) {
    && |s| == 4
    && s[0] in {'N', 'n'} && s[1] in {'U', 'u'} && s[2] in {'L', 'l'} && s[3] in {'L', 'l'}
  }

  predicate Blank(s: string) {
    forall i :: 0 <= i < |s| ==> IsSpace(s[i])
  }

  // ---- Printer ----

  predicate Quoted(s: string) {
    s == "" || IsNull(s) || exists i :: 0 <= i < |s| && Special(s[i])
  }

  function Replace(s: string, c: char, with: string): string {
    if s == "" then "" else (if s[0] == c then with else [s[0]]) + Replace(s[1..], c, with)
  }

  function FormatElement(v: Option<string>): string {
    match v
    case None => "NULL"
    case Some(s) => if Quoted(s) then "\"" + Replace(Replace(s, '\\', "\\\\"), '"', "\\\"") + "\"" else s
  }

  function FormatNested(node: Item): string
    decreases node
  {
    match node
    case Leaf(v) => FormatElement(v)
    case List(items) => "{" + Joined(items) + "}"
  }

  function Joined(items: seq<Item>): string
    decreases items
  {
    if items == [] then ""
    else if |items| == 1 then FormatNested(items[0])
    else FormatNested(items[0]) + "," + Joined(items[1..])
  }

  function Format(items: seq<Item>): Result<string> {
    match Dimensions(items)
    case Ok(_) => Ok(FormatNested(List(items)))
    case Err(reason) => Err(reason)
  }

  // ---- Parser ----

  /** What a parser consumed, and the text after it. */
  datatype Taken<+T> = Taken(value: T, rest: string)

  function Cons(c: char, r: Result<Taken<string>>): Result<Taken<string>> {
    match r
    case Ok(t) => Ok(Taken([c] + t.value, t.rest))
    case Err(reason) => Err(reason)
  }

  /** The text after an opening quote. */
  function ParseQuoted(s: string): (r: Result<Taken<string>>)
    ensures r.Ok? ==> |r.value.rest| < |s|
  {
    if s == "" then Err("unterminated quoted element in array literal")
    else if s[0] == '\\' then
      if |s| == 1 then Err("array literal ends with a trailing backslash") else Cons(s[1], ParseQuoted(s[2..]))
    else if s[0] == '"' then Ok(Taken("", s[1..]))
    else Cons(s[0], ParseQuoted(s[1..]))
  }

  function BareToken(s: string): (t: string)
    ensures |t| <= |s|
  {
    if s == "" || Stop(s[0]) then "" else [s[0]] + BareToken(s[1..])
  }

  function BareValue(token: string): Option<string> {
    if IsNull(Strip(token)) then None else Some(Strip(token))
  }

  function ParseItem(s: string): (r: Result<Taken<Item>>)
    requires s != ""
    ensures r.Ok? ==> |r.value.rest| <= |s|
    decreases |s|, 1
  {
    if s[0] == '{' then
      match ParseBraced(s)
      case Ok(t) => Ok(Taken(List(t.value), t.rest))
      case Err(reason) => Err(reason)
    else if s[0] == '"' then
      match ParseQuoted(s[1..])
      case Ok(t) => Ok(Taken(Leaf(Some(t.value)), t.rest))
      case Err(reason) => Err(reason)
    else
      var token := BareToken(s);
      Ok(Taken(Leaf(BareValue(token)), s[|token|..]))
  }

  function ParseItems(s: string): (r: Result<Taken<seq<Item>>>)
    ensures r.Ok? ==> |r.value.rest| < |s|
    decreases |s|, 2
  {
    var s := StripLeft(s);
    if s == "" then Err("unterminated array literal")
    else
      match ParseItem(s)
      case Err(reason) => Err(reason)
      case Ok(t) =>
        var rest := StripLeft(t.rest);
        if rest == "" then Err("unterminated array literal")
        else if rest[0] == ',' then
          match ParseItems(rest[1..])
          case Ok(more) => Ok(Taken([t.value] + more.value, more.rest))
          case Err(reason) => Err(reason)
        else if rest[0] == '}' then Ok(Taken([t.value], rest[1..]))
        else Err("unexpected character in array literal")
  }

  function ParseBraced(s: string): (r: Result<Taken<seq<Item>>>)
    requires s != "" && s[0] == '{'
    ensures r.Ok? ==> |r.value.rest| < |s|
    decreases |s|, 0
  {
    var inner := StripLeft(s[1..]);
    if inner != "" && inner[0] == '}' then Ok(Taken([], inner[1..])) else ParseItems(inner)
  }

  /** The text from the first `c`, if there is one. */
  function From(s: string, c: char): (r: string)
    ensures |r| <= |s| && (r != "" ==> r[0] == c)
  {
    if s == "" || s[0] == c then s else From(s[1..], c)
  }

  /** An explicit-bounds prefix `[..]=` is dropped. */
  function Body(text: string): Result<string> {
    var body := Strip(text);
    if body == "" || body[0] != '[' then Ok(body)
    else if From(body, '=') == "" then Err("malformed array literal")
    else Ok(StripLeft(From(body, '=')[1..]))
  }

  function Parse(text: string): Result<seq<Item>> {
    match Body(text)
    case Err(reason) => Err(reason)
    case Ok(body) =>
      if body == "" || body[0] != '{' then Err("malformed array literal, expected '{'")
      else
        match ParseBraced(body)
        case Err(reason) => Err(reason)
        case Ok(t) => if Strip(t.rest) != "" then Err("trailing characters after array literal") else Ok(t.value)
  }

  // ---- The index loops of the source ----

  method SkipSpaceLoop(text: string, start: nat) returns (index: nat)
    requires start <= |text|
    ensures start <= index <= |text| && text[index..] == StripLeft(text[start..])
  {
    index := start;
    while index < |text| && IsSpace(text[index])
      invariant start <= index <= |text|
      invariant StripLeft(text[index..]) == StripLeft(text[start..])
    {
      assert text[index..][1..] == text[index + 1..];
      index := index + 1;
    }
  }

  /** `done` characters already read in front of a result. */
  function Onto(done: string, r: Result<Taken<string>>): Result<Taken<string>> {
    match r
    case Ok(t) => Ok(Taken(done + t.value, t.rest))
    case Err(reason) => Err(reason)
  }

  lemma OntoCons(done: string, c: char, r: Result<Taken<string>>)
    ensures Onto(done, Cons(c, r)) == Onto(done + [c], r)
  {
    if r.Ok? {
      assert done + ([c] + r.value.value) == done + [c] + r.value.value;
    }
  }

  lemma OntoNothing(r: Result<Taken<string>>)
    ensures Onto("", r) == r
  {
    if r.Ok? {
      assert "" + r.value.value == r.value.value;
    }
  }

  method ParseQuotedLoop(text: string, start: nat) returns (r: Result<string>, index: nat)
    requires start <= |text|
    ensures index <= |text|
    ensures match r
            case Ok(s) => start < index && ParseQuoted(text[start..]) == Ok(Taken(s, text[index..]))
            case Err(reason) => ParseQuoted(text[start..]) == Err(reason)
  {
    index := start;
    var chars := "";
    OntoNothing(ParseQuoted(text[start..]));
    while index < |text|
      invariant start <= index <= |text|
      invariant Onto(chars, ParseQuoted(text[index..])) == ParseQuoted(text[start..])
    {
      var c := text[index];
      ghost var here := text[index..];
      assert here[1..] == text[index + 1..];
      if c == '\\' {
        index := index + 1;
        if index >= |text| {
          return Err("array literal ends with a trailing backslash"), index;
        }
        assert here[2..] == text[index + 1..];
        OntoCons(chars, text[index], ParseQuoted(text[index + 1..]));
        chars := chars + [text[index]];
      } else if c == '"' {
        assert chars + "" == chars;
        return Ok(chars), index + 1;
      } else {
        OntoCons(chars, c, ParseQuoted(text[index + 1..]));
        chars := chars + [c];
      }
      index := index + 1;
    }
    r := Err("unterminated quoted element in array literal");
  }

  lemma BareStep(text: string, start: nat, index: nat)
    requires start <= index < |text| && !Stop(text[index])
    ensures text[start..index] + BareToken(text[index..]) == text[start..index + 1] + BareToken(text[index + 1..])
  {
    assert text[index..][1..] == text[index + 1..];
    assert text[start..index] + [text[index]] == text[start..index + 1];
    Associate(text[start..index], [text[index]], BareToken(text[index + 1..]));
  }

  method ParseBareLoop(text: string, start: nat) returns (v: Option<string>, index: nat)
    requires start <= |text|
    ensures start <= index <= |text| && index == start + |BareToken(text[start..])|
    ensures v == BareValue(BareToken(text[start..]))
  {
    index := start;
    while index < |text| && !Stop(text[index])
      invariant start <= index <= |text|
      invariant text[start..index] + BareToken(text[index..]) == BareToken(text[start..])
    {
      BareStep(text, start, index);
      index := index + 1;
    }
    assert BareToken(text[start..]) == text[start..index];
    v := BareValue(text[start..index]);
  }

  /** Items already parsed in front of a result. */
  function OntoItems(done: seq<Item>, r: Result<Taken<seq<Item>>>): Result<Taken<seq<Item>>> {
    match r
    case Ok(t) => Ok(Taken(done + t.value, t.rest))
    case Err(reason) => Err(reason)
  }

  lemma OntoNextItem(done: seq<Item>, item: Item, r: Result<Taken<seq<Item>>>)
    ensures OntoItems(done, OntoItems([item], r)) == OntoItems(done + [item], r)
  {
    if r.Ok? {
      assert done + ([item] + r.value.value) == done + [item] + r.value.value;
    }
  }

  lemma OntoNoItems(r: Result<Taken<seq<Item>>>)
    ensures OntoItems([], r) == r
  {
    if r.Ok? {
      assert [] + r.value.value == r.value.value;
    }
  }

  lemma SkipTwice(s: string)
    ensures StripLeft(StripLeft(s)) == StripLeft(s)
  {
  }

  method ParseItemAt(text: string, start: nat) returns (r: Result<Item>, index: nat)
    requires start < |text|
    ensures start <= index <= |text|
    ensures match r
            case Ok(item) => ParseItem(text[start..]) == Ok(Taken(item, text[index..]))
            case Err(reason) => ParseItem(text[start..]) == Err(reason)
    decreases |text| - start, 1
  {
    index := start;
    if text[start] == '{' {
      var items;
      items, index := ParseBracedLoop(text, start);
      r := match items case Ok(v) => Ok(List(v)) case Err(reason) => Err(reason);
    } else if text[start] == '"' {
      var s;
      assert text[start..][1..] == text[start + 1..];
      s, index := ParseQuotedLoop(text, start + 1);
      match s {
        case Ok(v) => r := Ok(Leaf(Some(v)));
        case Err(reason) => r, index := Err(reason), start;
      }
    } else {
      var v;
      v, index := ParseBareLoop(text, start);
      r := Ok(Leaf(v));
    }
  }

  /** One turn of the item loop that ends on a comma. */
  lemma ParseItemsGoesOn(s: string, item: Item, rest: string)
    requires StripLeft(s) != "" && ParseItem(StripLeft(s)) == Ok(Taken(item, rest))
    requires StripLeft(rest) != "" && StripLeft(rest)[0] == ','
    ensures ParseItems(s) == OntoItems([item], ParseItems(StripLeft(rest)[1..]))
  {
  }

  /** A turn that ends the list, or the parse. */
  lemma ParseItemsEnds(s: string, item: Item, rest: string)
    requires StripLeft(s) != "" && ParseItem(StripLeft(s)) == Ok(Taken(item, rest))
    ensures var after := StripLeft(rest);
            && (after == "" ==> ParseItems(s) == Err("unterminated array literal"))
            && (after != "" && after[0] == '}' ==> ParseItems(s) == Ok(Taken([item], after[1..])))
            && (after != "" && !Stop(after[0]) ==> ParseItems(s) == Err("unexpected character in array literal"))
  {
  }

  /** One turn of the item loop: an item and the comma or brace after it. */
  method ParseTurn(text: string, start: nat) returns (item: Result<Item>, index: nat, last: bool)
    requires start <= |text|
    ensures start <= index <= |text|
    ensures match item
            case Err(reason) => ParseItems(text[start..]) == Err(reason)
            case Ok(v) =>
              && start < index
              && ParseItems(text[start..]) ==
                 if last then Ok(Taken([v], text[index..])) else OntoItems([v], ParseItems(text[index..]))
    decreases |text| - start, 2
  {
    last := false;
    index := SkipSpaceLoop(text, start);
    if index >= |text| {
      return Err("unterminated array literal"), index, last;
    }
    item, index := ParseItemAt(text, index);
    if item.Err? {
      return;
    }
    ghost var rest := text[index..];
    index := SkipSpaceLoop(text, index);
    ParseItemsEnds(text[start..], item.value, rest);
    if index >= |text| {
      return Err("unterminated array literal"), index, last;
    }
    if text[index] == ',' {
      ParseItemsGoesOn(text[start..], item.value, rest);
      assert StripLeft(rest)[1..] == text[index + 1..];
      index := index + 1;
    } else if text[index] == '}' {
      last := true;
      index := index + 1;
    } else {
      item := Err("unexpected character in array literal");
    }
  }

  method ParseItemsLoop(text: string, start: nat) returns (r: Result<seq<Item>>, index: nat)
    requires start <= |text|
    ensures start <= index <= |text|
    ensures match r
            case Ok(items) => start < index && ParseItems(text[start..]) == Ok(Taken(items, text[index..]))
            case Err(reason) => ParseItems(text[start..]) == Err(reason)
    decreases |text| - start, 3
  {
    var out: seq<Item> := [];
    index := start;
    OntoNoItems(ParseItems(text[start..]));
    while true
      invariant start <= index <= |text|
      invariant OntoItems(out, ParseItems(text[index..])) == ParseItems(text[start..])
      decreases |text| - index
    {
      var item, next, last := ParseTurn(text, index);
      index := next;
      if item.Err? {
        return Err(item.reason), index;
      }
      if last {
        return Ok(out + [item.value]), index;
      }
      OntoNextItem(out, item.value, ParseItems(text[index..]));
      out := out + [item.value];
    }
  }

  method ParseBracedLoop(text: string, start: nat) returns (r: Result<seq<Item>>, index: nat)
    requires start < |text| && text[start] == '{'
    ensures start <= index <= |text|
    ensures match r
            case Ok(items) => start < index && ParseBraced(text[start..]) == Ok(Taken(items, text[index..]))
            case Err(reason) => ParseBraced(text[start..]) == Err(reason)
    decreases |text| - start, 0
  {
    assert text[start..][1..] == text[start + 1..];
    index := SkipSpaceLoop(text, start + 1);
    if index < |text| && text[index] == '}' {
      return Ok([]), index + 1;
    }
    r, index := ParseItemsLoop(text, index);
  }
}
