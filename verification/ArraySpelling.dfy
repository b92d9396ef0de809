/** Array literals a client writes, not only the ones the printer does: spaces anywhere between the tokens,
    needless quotes and backslashes, NULL in any case, and an explicit-bounds prefix. */
module ArraySpelling {
  import opened Prelude
  import opened Text
  import opened Arrays
  import opened ArrayLiteral
  import opened ArrayLiteralRoundTrip

  /** A character between quotes, with a backslash before it or not. */
  datatype Written = Written(c: char, slashed: bool)

  /** An element with the spaces around it: text without quotes, text between quotes, or a list, which may
      hold spaces when it is empty. */
  datatype Element =
    | Unquoted(front: string, text: string, back: string)
    | Between(front: string, chars: seq<Written>, back: string)
    | Nested(front: string, elements: seq<Element>, space: string, back: string)

  function CharText(w: Written): string {
    if w.slashed then ['\\', w.c] else [w.c]
  }

  function CharsText(chars: seq<Written>): string {
    if chars == [] then "" else CharText(chars[0]) + CharsText(chars[1..])
  }

  function CharsMean(chars: seq<Written>): string {
    seq(|chars|, i requires 0 <= i < |chars| => chars[i].c)
  }

  /** A quote or backslash between the quotes has its own backslash. */
  predicate CharsFit(chars: seq<Written>) {
    forall i :: 0 <= i < |chars| ==> chars[i].slashed || (chars[i].c != '"' && chars[i].c != '\\')
  }

  function Core(e: Element): string
    decreases e, 0
  {
    match e
    case Unquoted(_, text, _) => text
    case Between(_, chars, _) => ['"'] + (CharsText(chars) + ['"'])
    case Nested(_, elements, space, _) => ['{'] + (Listed(elements, space) + ['}'])
  }

  function Listed(elements: seq<Element>, space: string): string
    decreases elements
  {
    if elements == [] then space
    else if |elements| == 1 then Spell(elements[0])
    else Spell(elements[0]) + ([','] + Listed(elements[1..], space))
  }

  function Spell(e: Element): string
    decreases e, 1
  {
    e.front + (Core(e) + e.back)
  }

  /** Text without quotes does not start like another element, holds no comma or closing brace, and its own
      ends are not spaces. A list of one such element that is empty is written like the empty list. */
  predicate Fits(e: Element)
    decreases e
  {
    Blank(e.front) && Blank(e.back) &&
    match e
    case Unquoted(_, text, _) =>
      Trimmed(text) && (text != "" ==> text[0] != '{' && text[0] != '"') && forall i :: 0 <= i < |text| ==> !Stop(text[i])
    case Between(_, chars, _) => CharsFit(chars)
    case Nested(_, elements, space, _) =>
      Blank(space) && !(|elements| == 1 && elements[0].Unquoted? && elements[0].text == "") &&
      forall i :: 0 <= i < |elements| ==> Fits(elements[i])
  }

  function Meaning(e: Element): Item
    decreases e
  {
    match e
    case Unquoted(_, text, _) => Leaf(if IsNull(text) then None else Some(text))
    case Between(_, chars, _) => Leaf(Some(CharsMean(chars)))
    case Nested(_, elements, _, _) => List(Meanings(elements))
  }

  function Meanings(elements: seq<Element>): (r: seq<Item>)
    decreases elements
  {
    if elements == [] then [] else [Meaning(elements[0])] + Meanings(elements[1..])
  }

  // ---- Spaces ----

  lemma {:induction false} SkipBlank(front: string, s: string)
    requires Blank(front)
    ensures StripLeft(front + s) == StripLeft(s)
  {
    if front == "" {
      assert front + s == s;
    } else {
      SkipBlank(front[1..], s);
      assert (front + s)[1..] == front[1..] + s;
    }
  }

  lemma {:induction false} DropBlank(s: string, back: string)
    requires Blank(back)
    ensures StripRight(s + back) == StripRight(s)
  {
    if back == "" {
      assert s + back == s;
    } else {
      DropBlank(s, back[..|back| - 1]);
      assert (s + back)[..|s + back| - 1] == s + back[..|back| - 1];
    }
  }

  lemma StripAround(text: string, back: string)
    requires Trimmed(text) && Blank(back)
    ensures Strip(text + back) == text
  {
    if text == "" {
      SkipBlank(back, "");
      assert text + back == back && back + "" == back;
    } else {
      assert StripLeft(text + back) == text + back;
      DropBlank(text, back);
    }
  }

  // ---- Elements ----

  /** The element at the head of the text, once leading space is skipped, and what follows it once the
      space behind it is skipped. */
  predicate Takes(text: string, item: Item, tail: string) {
    var s := StripLeft(text);
    s != "" && ParseItem(s).Ok? && ParseItem(s).value.value == item && StripLeft(ParseItem(s).value.rest) == tail
  }

  lemma {:induction false} BareTo(s: string, tail: string)
    requires (forall i :: 0 <= i < |s| ==> !Stop(s[i])) && tail != "" && Stop(tail[0])
    ensures BareToken(s + tail) == s
  {
    if s == "" {
      assert s + tail == tail;
    } else {
      assert (s + tail)[1..] == s[1..] + tail;
      BareTo(s[1..], tail);
    }
  }

  /** What is left of an unquoted element once the space in front of it is skipped. */
  function Token(e: Element): string
    requires e.Unquoted?
  {
    if e.text == "" then "" else e.text + e.back
  }

  lemma UnquotedTakes(e: Element, tail: string)
    requires e.Unquoted? && Fits(e) && tail != "" && Stop(tail[0])
    ensures Takes(Spell(e) + tail, Meaning(e), tail)
  {
    UnquotedStarts(e, tail);
    TokenFacts(e);
    TokenTakes(Token(e), e.text, tail);
  }

  lemma TokenTakes(token: string, text: string, tail: string)
    requires (forall i :: 0 <= i < |token| ==> !Stop(token[i])) && tail != "" && Stop(tail[0])
    requires Strip(token) == text && (token == "" || (token[0] != '{' && token[0] != '"'))
    ensures ParseItem(token + tail) == Ok(Taken(Leaf(if IsNull(text) then None else Some(text)), tail))
    ensures StripLeft(tail) == tail
  {
    BareTo(token, tail);
    var s := token + tail;
    assert s[|token|..] == tail;
    assert token == "" ==> s == tail;
    assert token != "" ==> s[0] == token[0];
  }

  lemma TokenFacts(e: Element)
    requires e.Unquoted? && Fits(e)
    ensures var token := Token(e);
            && (forall i :: 0 <= i < |token| ==> !Stop(token[i]))
            && Strip(token) == e.text && (token == "" || (token[0] != '{' && token[0] != '"'))
  {
    if e.text == "" {
      StripAround("", "");
    } else {
      StripAround(e.text, e.back);
      BlankHasNoStop(e.back);
      assert (e.text + e.back)[0] == e.text[0];
    }
  }

  lemma BlankHasNoStop(s: string)
    requires Blank(s)
    ensures forall i :: 0 <= i < |s| ==> !Stop(s[i])
  {
  }

  lemma UnquotedStarts(e: Element, tail: string)
    requires e.Unquoted? && Fits(e) && tail != "" && Stop(tail[0])
    ensures StripLeft(Spell(e) + tail) == Token(e) + tail
  {
    var rest := e.text + (e.back + tail);
    RegroupElement(e.front, e.text, e.back, tail);
    SkipBlank(e.front, rest);
    if e.text == "" {
      SkipBlank(e.back, tail);
      assert rest == e.back + tail && "" + tail == tail;
    } else {
      Associate(e.text, e.back, tail);
      assert rest[0] == e.text[0];
    }
  }

  lemma RegroupElement(front: string, core: string, back: string, tail: string)
    ensures front + (core + back) + tail == front + (core + (back + tail))
  {
  }

  lemma CharReads(w: Written, rest: string)
    requires w.slashed || (w.c != '"' && w.c != '\\')
    ensures ParseQuoted(CharText(w) + rest) == Cons(w.c, ParseQuoted(rest))
  {
    var text := CharText(w) + rest;
    if w.slashed {
      assert text[0] == '\\' && text[1] == w.c && text[2..] == rest;
    } else {
      assert text[0] == w.c && text[1..] == rest;
    }
  }

  lemma QuoteCloses(tail: string)
    ensures ParseQuoted(['"'] + tail) == Ok(Taken("", tail))
  {
    assert (['"'] + tail)[1..] == tail;
  }

  lemma {:induction false} CharsRead(chars: seq<Written>, tail: string)
    requires CharsFit(chars)
    ensures ParseQuoted(CharsText(chars) + (['"'] + tail)) == Ok(Taken(CharsMean(chars), tail))
  {
    var close := ['"'] + tail;
    if chars == [] {
      QuoteCloses(tail);
      assert "" + close == close && CharsMean(chars) == "";
    } else {
      CharsRead(chars[1..], tail);
      CharReads(chars[0], CharsText(chars[1..]) + close);
      Associate(CharText(chars[0]), CharsText(chars[1..]), close);
      assert [chars[0].c] + CharsMean(chars[1..]) == CharsMean(chars);
    }
  }

  /** The text of an element after its front, up to and with what follows it. */
  lemma AfterFront(e: Element, tail: string)
    requires Blank(e.front)
    ensures StripLeft(Spell(e) + tail) == StripLeft(Core(e) + (e.back + tail))
  {
    RegroupElement(e.front, Core(e), e.back, tail);
    SkipBlank(e.front, Core(e) + (e.back + tail));
  }

  lemma BetweenTakes(e: Element, tail: string)
    requires e.Between? && Fits(e) && tail != "" && Stop(tail[0])
    ensures Takes(Spell(e) + tail, Meaning(e), tail)
  {
    var after := e.back + tail;
    AfterFront(e, tail);
    var s := Core(e) + after;
    assert s == ['"'] + (CharsText(e.chars) + (['"'] + after));
    assert s[0] == '"' && s[1..] == CharsText(e.chars) + (['"'] + after);
    CharsRead(e.chars, after);
    SkipBlank(e.back, tail);
  }

  lemma {:induction false} ElementTakes(e: Element, tail: string)
    requires Fits(e) && tail != "" && Stop(tail[0])
    ensures Takes(Spell(e) + tail, Meaning(e), tail)
    decreases e, 1
  {
    match e
    case Unquoted(_, _, _) => UnquotedTakes(e, tail);
    case Between(_, _, _) => BetweenTakes(e, tail);
    case Nested(_, _, _, _) =>
      AfterFront(e, tail);
      NestedReads(e, e.back + tail);
      SkipBlank(e.back, tail);
  }

  /** A list from its brace on. */
  lemma {:induction false} NestedReads(e: Element, after: string)
    requires e.Nested? && Fits(e)
    ensures var s := Core(e) + after;
            s[0] == '{' && ParseBraced(s) == Ok(Taken(Meanings(e.elements), after))
    decreases e, 0
  {
    var s := Core(e) + after;
    var inner := Listed(e.elements, e.space) + (['}'] + after);
    assert s == ['{'] + inner && s[1..] == inner;
    if e.elements == [] {
      SkipBlank(e.space, ['}'] + after);
      assert (['}'] + after)[1..] == after;
    } else {
      ElementsRead(e.elements, e.space, after);
      ListStarts(e.elements, e.space, ['}'] + after);
      ParseItemsSkips(inner);
    }
  }

  /** A list that is not empty does not begin with its closing brace. */
  lemma ListStarts(elements: seq<Element>, space: string, tail: string)
    requires elements != [] && Fits(elements[0]) && tail != "" && Stop(tail[0])
    requires !(|elements| == 1 && elements[0].Unquoted? && elements[0].text == "")
    ensures var s := StripLeft(Listed(elements, space) + tail); s != "" ==> s[0] != '}'
  {
    var e := elements[0];
    var after := if |elements| == 1 then tail else [','] + Listed(elements[1..], space) + tail;
    assert Listed(elements, space) + tail == Spell(e) + after;
    if e.Unquoted? {
      UnquotedStarts(e, after);
      TokenFacts(e);
      if Token(e) != "" {
        assert (Token(e) + after)[0] == Token(e)[0];
      } else {
        assert "" + after == after;
      }
    } else {
      AfterFront(e, after);
    }
  }

  lemma {:induction false} ElementsRead(elements: seq<Element>, space: string, after: string)
    requires elements != [] && forall i :: 0 <= i < |elements| ==> Fits(elements[i])
    ensures ParseItems(Listed(elements, space) + (['}'] + after)) == Ok(Taken(Meanings(elements), after))
    decreases elements
  {
    var e := elements[0];
    var close := ['}'] + after;
    if |elements| == 1 {
      ElementTakes(e, close);
      TakesLast(Spell(e) + close, Meaning(e), after);
      assert Meanings(elements) == [Meaning(e)];
    } else {
      var rest := Listed(elements[1..], space) + close;
      ElementTakes(e, [','] + rest);
      TakesNext(Spell(e) + ([','] + rest), Meaning(e), rest);
      ElementsRead(elements[1..], space, after);
      ListedNext(Spell(e), Listed(elements[1..], space), close);
    }
  }

  lemma ListedNext(first: string, others: string, close: string)
    ensures first + ([','] + others) + close == first + ([','] + (others + close))
  {
  }

  lemma TakesLast(text: string, item: Item, after: string)
    requires Takes(text, item, ['}'] + after)
    ensures ParseItems(text) == Ok(Taken([item], after))
  {
    assert (['}'] + after)[1..] == after;
    ParseItemsEnds(text, item, ParseItem(StripLeft(text)).value.rest);
  }

  lemma TakesNext(text: string, item: Item, rest: string)
    requires Takes(text, item, [','] + rest)
    ensures ParseItems(text) == OntoItems([item], ParseItems(rest))
  {
    assert ([','] + rest)[1..] == rest;
    ParseItemsGoesOn(text, item, ParseItem(StripLeft(text)).value.rest);
  }

  // ---- Whole literals ----

  /** The literal of a list, with spaces around it and, when `bounds` is there, an explicit-bounds prefix. */
  function Literal(e: Element, bounds: Option<string>): string {
    match bounds
    case None => Spell(e)
    case Some(b) => e.front + (['['] + b + ['=']) + Spell(e)
  }

  lemma BracesStay(e: Element)
    requires e.Nested? && Fits(e)
    ensures Strip(Spell(e)) == Core(e)
  {
    AfterFront(e, "");
    assert Spell(e) + "" == Spell(e) && e.back + "" == e.back;
    var s := Core(e);
    assert s[0] == '{' && s[|s| - 1] == '}';
    DropBlank(s, e.back);
  }

  lemma {:induction false} FromAt(b: string, c: char, rest: string)
    requires c !in b
    ensures From(b + ([c] + rest), c) == [c] + rest
  {
    if b == "" {
      assert b + ([c] + rest) == [c] + rest;
    } else {
      assert (b + ([c] + rest))[1..] == b[1..] + ([c] + rest);
      FromAt(b[1..], c, rest);
    }
  }

  lemma PrefixStays(e: Element, b: string)
    requires e.Nested? && Fits(e)
    ensures Strip(Literal(e, Some(b))) == ['['] + b + (['='] + (e.front + Core(e)))
  {
    var kept := ['['] + b + (['='] + (e.front + Core(e)));
    PrefixGroups(e.front, ['['] + b, Core(e), e.back);
    LastOfNested(e);
    assert kept[0] == '[' && kept[|kept| - 1] == Core(e)[|Core(e)| - 1];
    StripOuter(e.front, kept, e.back);
  }

  lemma LastOfNested(e: Element)
    requires e.Nested?
    ensures var s := Core(e); s != "" && s[0] == '{' && s[|s| - 1] == '}'
  {
  }

  lemma PrefixGroups(front: string, head: string, core: string, back: string)
    ensures front + (head + ['=']) + (front + (core + back)) == front + (head + (['='] + (front + core)) + back)
  {
  }

  lemma StripOuter(front: string, s: string, back: string)
    requires Blank(front) && Blank(back) && s != "" && !IsSpace(s[0]) && !IsSpace(s[|s| - 1])
    ensures Strip(front + (s + back)) == s
  {
    SkipBlank(front, s + back);
    DropBlank(s, back);
  }

  lemma BoundsAreDropped(e: Element, b: string)
    requires e.Nested? && Fits(e) && '=' !in b
    ensures Body(Literal(e, Some(b))) == Ok(Core(e))
  {
    PrefixStays(e, b);
    BodyDrops(Literal(e, Some(b)), b, e.front + Core(e));
    LastOfNested(e);
    SkipBlank(e.front, Core(e));
    SkipStays(Core(e));
  }

  lemma SkipStays(s: string)
    requires s != "" && !IsSpace(s[0])
    ensures StripLeft(s) == s
  {
  }

  lemma BodyDrops(text: string, b: string, tail: string)
    requires '=' !in b && Strip(text) == ['['] + b + (['='] + tail)
    ensures Body(text) == Ok(StripLeft(tail))
  {
    FromAt(['['] + b, '=', tail);
    assert (['='] + tail)[1..] == tail;
  }

  lemma BodyIs(e: Element, bounds: Option<string>)
    requires e.Nested? && Fits(e) && (bounds.Some? ==> '=' !in bounds.value)
    ensures Body(Literal(e, bounds)) == Ok(Core(e))
  {
    match bounds
    case None => BracesStay(e);
    case Some(b) => BoundsAreDropped(e, b);
  }

  /** Every such literal parses to the list it spells. */
  lemma EverySpellingParses(e: Element, bounds: Option<string>)
    requires e.Nested? && Fits(e) && (bounds.Some? ==> '=' !in bounds.value)
    ensures Parse(Literal(e, bounds)) == Ok(Meanings(e.elements))
  {
    BodyIs(e, bounds);
    NestedReads(e, "");
    assert Core(e) + "" == Core(e);
  }

  /** Anything but spaces behind the closing brace is refused. */
  lemma TrailingIsRefused(e: Element, more: string)
    requires e.Nested? && Fits(e) && e.back == "" && !Blank(more)
    ensures Parse(Spell(e) + more).Err?
  {
    var text := Spell(e) + more;
    assert e.back + more == more && Core(e) + e.back == Core(e);
    AfterFront(e, more);
    NestedReads(e, StripRight(more));
    StripRightOf(Core(e), more);
    assert StripLeft(text) == Core(e) + more;
    StillThere(more);
  }

  lemma {:induction false} StripRightOf(a: string, more: string)
    requires !Blank(more)
    ensures StripRight(a + more) == a + StripRight(more)
  {
    if IsSpace(more[|more| - 1]) {
      assert (a + more)[..|a + more| - 1] == a + more[..|more| - 1];
      StripRightOf(a, more[..|more| - 1]);
    }
  }

  lemma {:induction false} StillThere(more: string)
    requires !Blank(more)
    ensures Strip(StripRight(more)) != ""
  {
    if IsSpace(more[|more| - 1]) {
      StillThere(more[..|more| - 1]);
    } else {
      SkipKeeps(more);
      var t := StripLeft(more);
      SuffixKept(more);
    }
  }

  lemma {:induction false} SuffixKept(s: string)
    requires s != "" && !IsSpace(s[|s| - 1])
    ensures var t := StripLeft(s); t != "" && t[|t| - 1] == s[|s| - 1]
  {
    if IsSpace(s[0]) {
      SuffixKept(s[1..]);
    }
  }

  // ---- Which spelling the printer chooses ----

  /** A brace, comma, quote, backslash or ASCII white space. */
  predicate ForcesQuotes(c: char) {
    c == '{' || c == '}' || c == ',' || c == '"' || c == '\\' || c == ' ' || 9 <= c as int <= 13
  }

  predicate NeedsQuotes(s: string) {
    s == "" || IsNull(s) || exists i :: 0 <= i < |s| && ForcesQuotes(s[i])
  }

  function Chosen(s: string): seq<Written> {
    seq(|s|, i requires 0 <= i < |s| => Written(s[i], s[i] == '"' || s[i] == '\\'))
  }

  /** No spaces, quotes where the element needs them and nowhere else, and a backslash before a quote or
      backslash and nowhere else. */
  function Printed(node: Item): Element
    decreases node
  {
    match node
    case Leaf(None) => Unquoted("", "NULL", "")
    case Leaf(Some(s)) => if NeedsQuotes(s) then Between("", Chosen(s), "") else Unquoted("", s, "")
    case List(items) => Nested("", PrintedAll(items), "", "")
  }

  function PrintedAll(items: seq<Item>): (r: seq<Element>)
    ensures |r| == |items|
    decreases items
  {
    if items == [] then [] else [Printed(items[0])] + PrintedAll(items[1..])
  }

  lemma SpecialsAre(s: string)
    ensures Quoted(s) <==> NeedsQuotes(s)
  {
    assert forall i :: 0 <= i < |s| ==> (Special(s[i]) <==> ForcesQuotes(s[i]));
  }

  lemma {:induction false} ChosenText(s: string)
    ensures CharsText(Chosen(s)) == Escaped(s) && CharsFit(Chosen(s)) && CharsMean(Chosen(s)) == s
  {
    if s != "" {
      ChosenText(s[1..]);
      assert Chosen(s) == [Written(s[0], s[0] == '"' || s[0] == '\\')] + Chosen(s[1..]);
    }
  }

  lemma ElementPrints(s: string)
    ensures FormatElement(Some(s)) == Core(Printed(Leaf(Some(s))))
  {
    SpecialsAre(s);
    if NeedsQuotes(s) {
      EscapedInTwoPasses(s);
      ChosenText(s);
      assert "\"" + Escaped(s) + "\"" == ['"'] + (Escaped(s) + ['"']);
    }
  }

  lemma NoSpaces(node: Item)
    ensures Spell(Printed(node)) == Core(Printed(node))
  {
    var t := Core(Printed(node));
    assert "" + (t + "") == t;
  }

  /** The printer writes exactly that spelling. */
  lemma {:induction false} PrintsPlainly(node: Item)
    ensures FormatNested(node) == Core(Printed(node))
    decreases node
  {
    match node
    case Leaf(None) =>
    case Leaf(Some(s)) => ElementPrints(s);
    case List(items) => PrintsAll(items);
  }

  lemma {:induction false} PrintsAll(items: seq<Item>)
    ensures Joined(items) == Listed(PrintedAll(items), "")
    decreases items
  {
    if items != [] {
      PrintsPlainly(items[0]);
      NoSpaces(items[0]);
      if |items| > 1 {
        PrintsAll(items[1..]);
        assert PrintedAll(items)[1..] == PrintedAll(items[1..]);
      }
    }
  }
}
