/** What parsing a printed array literal gives, for every value the printer accepts. */
module ArrayLiteralRoundTrip {
  import opened Prelude
  import opened Text
  import opened Arrays
  import opened ArrayLiteral

  /** A text printed without quotes. */
  predicate Bare(v: Option<string>) {
    v.Some? && !Quoted(v.value)
  }

  /** A list that prints as braces around white space only, which reads as the empty list. */
  predicate Vanishes(items: seq<Item>) {
    |items| == 1 && items[0].Leaf? && Bare(items[0].value) && Blank(items[0].value.value)
  }

  /** The value after printing and parsing. The printer quotes ASCII white space only and the parser
      strips every Unicode space, so a bare text can lose its ends. */
  function Reparsed(node: Item): Item
    decreases node
  {
    match node
    case Leaf(v) => Leaf(if Bare(v) then BareValue(v.value) else v)
    case List(items) => List(if Vanishes(items) then [] else ReparsedAll(items))
  }

  function ReparsedAll(items: seq<Item>): (r: seq<Item>)
    ensures |r| == |items| && forall i :: 0 <= i < |items| ==> r[i] == Reparsed(items[i])
    decreases items
  {
    if items == [] then [] else [Reparsed(items[0])] + ReparsedAll(items[1..])
  }

  /** No element printed without quotes begins or ends with a Unicode space. */
  predicate EndsKept(node: Item)
    decreases node
  {
    match node
    case Leaf(v) => Bare(v) ==> !IsSpace(v.value[0]) && !IsSpace(v.value[|v.value| - 1])
    case List(items) => forall i :: 0 <= i < |items| ==> EndsKept(items[i])
  }

  // ---- Escaping ----

  function Escaped(s: string): string {
    if s == "" then "" else EscapedChar(s[0]) + Escaped(s[1..])
  }

  lemma {:induction false} ReplaceAppend(a: string, b: string, c: char, with: string)
    ensures Replace(a + b, c, with) == Replace(a, c, with) + Replace(b, c, with)
  {
    if a == "" {
      assert a + b == b;
    } else {
      ReplaceAppend(a[1..], b, c, with);
      ReplaceStep(a + b, c, with);
      ReplaceStep(a, c, with);
      assert (a + b)[1..] == a[1..] + b;
      Associate(if a[0] == c then with else [a[0]], Replace(a[1..], c, with), Replace(b, c, with));
    }
  }

  lemma ReplaceStep(s: string, c: char, with: string)
    requires s != ""
    ensures Replace(s, c, with) == (if s[0] == c then with else [s[0]]) + Replace(s[1..], c, with)
  {
  }

  /** The two replacements in a row escape each character once. */
  lemma {:induction false} EscapedInTwoPasses(s: string)
    ensures Replace(Replace(s, '\\', "\\\\"), '"', "\\\"") == Escaped(s)
  {
    if s != "" {
      EscapedInTwoPasses(s[1..]);
      var first := if s[0] == '\\' then "\\\\" else [s[0]];
      ReplaceAppend(first, Replace(s[1..], '\\', "\\\\"), '"', "\\\"");
      ReplaceFew(first);
    }
  }

  lemma ReplaceFew(s: string)
    requires s == "\\\\" || |s| == 1
    ensures Replace(s, '"', "\\\"") == if s == ['"'] then "\\\"" else s
  {
    if |s| == 2 {
      assert s[1..] == "\\" && s[1..][1..] == "";
    }
  }

  function EscapedChar(c: char): string {
    if c == '\\' || c == '"' then ['\\', c] else [c]
  }

  lemma QuotedOne(c: char, rest: string)
    ensures ParseQuoted(EscapedChar(c) + rest) == Cons(c, ParseQuoted(rest))
  {
    var text := EscapedChar(c) + rest;
    if c == '\\' || c == '"' {
      assert text[0] == '\\' && text[1] == c && text[2..] == rest;
    } else {
      assert text[0] == c && text[1..] == rest;
    }
  }

  lemma {:induction false} QuotedReadsBack(s: string, tail: string)
    ensures ParseQuoted(Escaped(s) + ("\"" + tail)) == Ok(Taken(s, tail))
  {
    var close := "\"" + tail;
    if s == "" {
      assert "" + close == close && close[1..] == tail;
    } else {
      QuotedReadsBack(s[1..], tail);
      QuotedOne(s[0], Escaped(s[1..]) + close);
      Associate(EscapedChar(s[0]), Escaped(s[1..]), close);
      assert [s[0]] + s[1..] == s;
    }
  }

  // ---- Bare tokens ----

  predicate Plain(s: string) {
    forall i :: 0 <= i < |s| ==> !Special(s[i])
  }

  lemma {:induction false} BareReadsBack(s: string, tail: string)
    requires Plain(s) && tail != "" && Stop(tail[0])
    ensures BareToken(s + tail) == s
  {
    if s == "" {
      assert s + tail == tail;
    } else {
      assert (s + tail)[1..] == s[1..] + tail;
      BareReadsBack(s[1..], tail);
    }
  }

  lemma {:induction false} SkipIntoTail(s: string, tail: string)
    requires tail != "" && Stop(tail[0])
    ensures StripLeft(s + tail) == StripLeft(s) + tail
  {
    if s == "" {
      assert s + tail == tail;
    } else {
      assert (s + tail)[1..] == s[1..] + tail;
      SkipIntoTail(s[1..], tail);
      if !IsSpace(s[0]) {
        assert StripLeft(s + tail) == s + tail;
      }
    }
  }

  lemma {:induction false} SkipKeeps(s: string)
    ensures Plain(s) ==> Plain(StripLeft(s))
    ensures StripLeft(s) == "" <==> Blank(s)
    ensures StripLeft(s) != "" ==> !IsSpace(StripLeft(s)[0])
  {
    if s != "" && IsSpace(s[0]) {
      SkipKeeps(s[1..]);
      assert Blank(s) <==> Blank(s[1..]) by {
        assert forall i :: 0 < i < |s| ==> s[i] == s[1..][i - 1];
      }
    } else if s != "" {
      assert !Blank(s);
    }
  }

  lemma SkipNothing(s: string, tail: string)
    requires s != "" && !IsSpace(s[0])
    ensures StripLeft(s + tail) == s + tail
  {
  }

  // ---- Items ----

  /** The item at the head of the text, once leading space is skipped. */
  predicate ReadsAs(text: string, item: Item, tail: string) {
    var s := StripLeft(text);
    s != "" && ParseItem(s) == Ok(Taken(item, tail))
  }

  lemma BareItem(s: string, tail: string)
    requires !Quoted(s) && tail != "" && Stop(tail[0])
    ensures ReadsAs(s + tail, Leaf(BareValue(s)), tail)
  {
    var t := StripLeft(s);
    SkipIntoTail(s, tail);
    SkipKeeps(s);
    assert Plain(t);
    BareReadsBack(t, tail);
    SkipTwice(s);
    var text := t + tail;
    assert text[0] != '{' && text[0] != '"' by {
      if t != "" {
        assert !Special(t[0]);
      }
    }
    assert text[|t|..] == tail;
  }

  lemma NullItem(tail: string)
    requires tail != "" && Stop(tail[0])
    ensures ReadsAs("NULL" + tail, Leaf(None), tail)
  {
    var text := "NULL" + tail;
    SkipNothing("NULL", tail);
    assert Plain("NULL");
    BareReadsBack("NULL", tail);
    assert StripLeft("NULL") == "NULL" && StripRight("NULL") == "NULL";
    assert text[4..] == tail;
  }

  lemma QuotedItem(s: string, tail: string)
    requires Quoted(s)
    ensures ReadsAs(FormatElement(Some(s)) + tail, Leaf(Some(s)), tail)
  {
    EscapedInTwoPasses(s);
    QuotedReadsBack(s, tail);
    QuotedStart(Escaped(s) + ("\"" + tail), s, tail);
    Associate("\"" + Escaped(s), "\"", tail);
    Associate("\"", Escaped(s), "\"" + tail);
  }

  lemma QuotedStart(inner: string, s: string, tail: string)
    requires ParseQuoted(inner) == Ok(Taken(s, tail))
    ensures ReadsAs("\"" + inner, Leaf(Some(s)), tail)
  {
    var text := "\"" + inner;
    assert text[0] == '"' && text[1..] == inner;
  }

  lemma {:induction false} ItemReadsBack(node: Item, tail: string)
    requires tail != "" && Stop(tail[0])
    ensures ReadsAs(FormatNested(node) + tail, Reparsed(node), tail)
    decreases node, 0
  {
    match node
    case Leaf(None) => NullItem(tail);
    case Leaf(Some(s)) =>
      if Quoted(s) {
        QuotedItem(s, tail);
      } else {
        BareItem(s, tail);
      }
    case List(items) =>
      BracedReadsBack(items, tail);
      SkipNothing(FormatNested(node), tail);
  }

  lemma {:induction false} BracedReadsBack(items: seq<Item>, tail: string)
    ensures var text := FormatNested(List(items)) + tail;
            text[0] == '{' && ParseBraced(text) == Ok(Taken(Reparsed(List(items)).items, tail))
    decreases items, 1
  {
    var text := FormatNested(List(items)) + tail;
    var inner := Joined(items) + ("}" + tail);
    assert text[1..] == inner;
    if items == [] {
      assert inner == "}" + tail;
    } else {
      JoinedStart(items, "}" + tail);
      if Vanishes(items) {
        assert StripLeft(inner)[1..] == tail;
      } else {
        ItemsReadBack(items, tail);
        ParseItemsSkips(inner);
      }
    }
  }

  lemma ParseItemsSkips(s: string)
    ensures ParseItems(StripLeft(s)) == ParseItems(s)
  {
    SkipTwice(s);
  }

  /** The list is taken for the empty one exactly when it vanishes. */
  lemma JoinedStart(items: seq<Item>, tail: string)
    requires items != [] && tail != "" && tail[0] == '}'
    ensures var s := StripLeft(Joined(items) + tail);
            s != "" && (s[0] == '}' <==> Vanishes(items)) && (Vanishes(items) ==> s == tail)
  {
    var head := FormatNested(items[0]);
    var after := if |items| == 1 then tail else "," + Joined(items[1..]) + tail;
    assert Joined(items) + tail == head + after;
    if items[0].Leaf? && Bare(items[0].value) {
      SkipIntoTail(head, after);
      SkipKeeps(head);
      if !Blank(head) {
        assert !Special(StripLeft(head)[0]);
      }
    } else {
      assert head != "" && !IsSpace(head[0]) && head[0] != '}';
      SkipNothing(head, after);
    }
  }

  lemma {:induction false} ItemsReadBack(items: seq<Item>, tail: string)
    requires items != []
    ensures ParseItems(Joined(items) + ("}" + tail)) == Ok(Taken(ReparsedAll(items), tail))
    decreases items, 0
  {
    if |items| == 1 {
      ItemReadsBack(items[0], "}" + tail);
      LastItem(FormatNested(items[0]) + ("}" + tail), Reparsed(items[0]), tail);
      assert ReparsedAll(items) == [Reparsed(items[0])];
    } else {
      var rest := Joined(items[1..]) + ("}" + tail);
      ItemReadsBack(items[0], "," + rest);
      NextItem(FormatNested(items[0]) + ("," + rest), Reparsed(items[0]), rest);
      ItemsReadBack(items[1..], tail);
      Associate(FormatNested(items[0]) + ",", Joined(items[1..]), "}" + tail);
      Associate(FormatNested(items[0]), ",", rest);
    }
  }

  lemma LastItem(text: string, item: Item, tail: string)
    requires ReadsAs(text, item, "}" + tail)
    ensures ParseItems(text) == Ok(Taken([item], tail))
  {
    var after := "}" + tail;
    assert StripLeft(after) == after && after[1..] == tail;
    ParseItemsEnds(text, item, after);
  }

  lemma NextItem(text: string, item: Item, rest: string)
    requires ReadsAs(text, item, "," + rest)
    ensures ParseItems(text) == OntoItems([item], ParseItems(rest))
  {
    var after := "," + rest;
    assert StripLeft(after) == after && after[1..] == rest;
    ParseItemsGoesOn(text, item, after);
  }

  // ---- The main results ----

  lemma StripKeepsBraces(s: string)
    requires s != "" && !IsSpace(s[0]) && !IsSpace(s[|s| - 1])
    ensures Strip(s) == s
  {
  }

  /** Parsing any printed literal gives exactly the reparsed value. */
  lemma LiteralReadsAs(items: seq<Item>)
    requires Format(items).Ok?
    ensures Parse(Format(items).value) == Ok(Reparsed(List(items)).items)
  {
    var text := Format(items).value;
    StripKeepsBraces(text);
    assert text == FormatNested(List(items)) + "";
    BracedReadsBack(items, "");
    assert Strip("") == "";
  }

  /** A printed literal parses to the value itself if and only if every element printed without
      quotes begins and ends with a character that is not a Unicode space. */
  lemma LiteralRoundTrip(items: seq<Item>)
    requires Format(items).Ok?
    ensures Parse(Format(items).value) == Ok(items) <==> EndsKept(List(items))
  {
    LiteralReadsAs(items);
    ReparsedExactly(List(items));
  }

  lemma {:induction false} ReparsedExactly(node: Item)
    ensures Reparsed(node) == node <==> EndsKept(node)
    decreases node
  {
    match node
    case Leaf(v) =>
      if Bare(v) {
        StripExactly(v.value);
      }
    case List(items) =>
      if Vanishes(items) {
        assert !EndsKept(items[0]);
      } else {
        forall i | 0 <= i < |items|
          ensures Reparsed(items[i]) == items[i] <==> EndsKept(items[i])
        {
          ReparsedExactly(items[i]);
        }
      }
  }

  lemma StripExactly(s: string)
    requires s != ""
    ensures Strip(s) == s <==> !IsSpace(s[0]) && !IsSpace(s[|s| - 1])
  {
    if IsSpace(s[0]) {
      StripEndShorter(StripLeft(s[1..]));
    } else if IsSpace(s[|s| - 1]) {
      StripEndShorter(s[..|s| - 1]);
    }
  }

  lemma {:induction false} StripEndShorter(s: string)
    ensures |StripRight(s)| <= |s|
    decreases |s|
  {
    if s != "" && IsSpace(s[|s| - 1]) {
      StripEndShorter(s[..|s| - 1]);
    }
  }

  /** A no-break space at the end of an element is lost. */
  lemma NoBreakSpaceIsLost(s: string)
    requires s == ['a', 0xA0 as char]
    ensures Format([Leaf(Some(s))]).Ok?
    ensures Parse(Format([Leaf(Some(s))]).value) == Ok([Leaf(Some("a"))])
  {
    var items: seq<Item> := [Leaf(Some(s))];
    assert FirstPath(List(items)) == [1];
    assert Rectangular(List(items), [1]);
    LiteralReadsAs(items);
    assert Plain(s) && !IsSpace(s[0]);
    assert s[..1] == "a" && StripRight(s) == StripRight(s[..1]);
    assert Strip(s) == "a";
    assert Reparsed(List(items)).items == [Leaf(Some("a"))];
  }
}
