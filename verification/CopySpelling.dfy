/** Everything a client may send in text format, not only what the encoder writes: every spelling of every
    value, any ends of lines, and a last line without one. */
module CopySpelling {
  import opened Prelude
  import opened Copy
  import opened CopyText

  // ---- Spellings of a character ----

  const DIGITS := "0123456789abcdef"
  const CAPITALS := "0123456789ABCDEF"
  const LETTERS := "bfnrtv"

  /** Is c the digit d of this base? */
  predicate Writes(c: char, d: nat, base: nat) {
    d < base <= 16 && (c == DIGITS[d] || c == CAPITALS[d])
  }

  predicate AllWrite(text: string, digits: seq<nat>, base: nat) {
    |text| == |digits| && forall i :: 0 <= i < |text| ==> Writes(text[i], digits[i], base)
  }

  /** One way to write one character: as it is, as a backslash and a letter, as a backslash and itself,
      or as a backslash and its number. */
  datatype Piece =
    | Bare(c: char)
    | Letter(letter: char)
    | Slashed(c: char)
    | Octal(text: string, digits: seq<nat>)
    | Hex(text: string, digits: seq<nat>)

  /** Does the text go on with another digit of this base? */
  predicate GoesOn(rest: string, base: nat) {
    rest != "" && exists d :: 0 <= d < 16 && Writes(rest[0], d, base)
  }

  /** May the piece stand before this text? A number shorter than it may be must not run into a digit. */
  predicate Fits(p: Piece, rest: string) {
    match p
    case Bare(c) => c != '\\' || rest == ""
    case Letter(letter) => letter in LETTERS
    case Slashed(c) => c !in LETTERS && !GoesOn([c], 8) && (c == 'x' ==> !GoesOn(rest, 16))
    case Octal(text, digits) => 1 <= |text| <= 3 && AllWrite(text, digits, 8) && (|text| < 3 ==> !GoesOn(rest, 8))
    case Hex(text, digits) => 1 <= |text| <= 2 && AllWrite(text, digits, 16) && (|text| < 2 ==> !GoesOn(rest, 16))
  }

  function Spell(p: Piece): string {
    match p
    case Bare(c) => [c]
    case Letter(letter) => ['\\', letter]
    case Slashed(c) => ['\\', c]
    case Octal(text, _) => ['\\'] + text
    case Hex(text, _) => ['\\', 'x'] + text
  }

  function Number(digits: seq<nat>, base: nat): nat {
    if digits == [] then 0 else Number(digits[..|digits| - 1], base) * base + digits[|digits| - 1]
  }

  /** The character of a number; no piece has a number this does not cover. */
  function Char(n: nat): char {
    if n < 0xD800 then n as char else '?'
  }

  function Meaning(p: Piece): char {
    match p
    case Bare(c) => c
    case Letter(letter) =>
      if letter == 'b' then 8 as char
      else if letter == 't' then 9 as char
      else if letter == 'n' then 10 as char
      else if letter == 'v' then 11 as char
      else if letter == 'f' then 12 as char
      else 13 as char
    case Slashed(c) => c
    case Octal(_, digits) => Char(Number(digits, 8))
    case Hex(_, digits) => Char(Number(digits, 16))
  }

  function Spelled(pieces: seq<Piece>): string {
    if pieces == [] then "" else Spell(pieces[0]) + Spelled(pieces[1..])
  }

  function Meant(pieces: seq<Piece>): string {
    seq(|pieces|, i requires 0 <= i < |pieces| => Meaning(pieces[i]))
  }

  predicate AllFit(pieces: seq<Piece>) {
    pieces == [] || (Fits(pieces[0], Spelled(pieces[1..])) && AllFit(pieces[1..]))
  }

  lemma HexDigitIs(c: char, d: nat)
    ensures HexDigit(c) == Some(d) <==> Writes(c, d, 16)
  {
    if d < 16 {
      HexDigitAt(d);
    }
    if HexDigit(c) == Some(d) {
      HexDigitFound(c);
    }
  }

  lemma HexDigitAt(d: nat)
    requires d < 16
    ensures HexDigit(DIGITS[d]) == Some(d) && HexDigit(CAPITALS[d]) == Some(d)
  {
  }

  lemma HexDigitFound(c: char)
    requires HexDigit(c).Some?
    ensures Writes(c, HexDigit(c).value, 16)
  {
  }

  lemma OctalIs(c: char, d: nat)
    ensures Writes(c, d, 8) <==> IsOctal(c) && d == c as int - '0' as int
  {
    HexDigitIs(c, d);
  }

  lemma GoesOnHex(s: string)
    ensures GoesOn(s, 16) <==> s != "" && HexDigit(s[0]).Some?
  {
    if s != "" {
      if HexDigit(s[0]).Some? {
        HexDigitIs(s[0], HexDigit(s[0]).value);
      }
      if GoesOn(s, 16) {
        var d :| 0 <= d < 16 && Writes(s[0], d, 16);
        HexDigitIs(s[0], d);
      }
    }
  }

  lemma GoesOnOctal(s: string)
    ensures GoesOn(s, 8) <==> s != "" && IsOctal(s[0])
  {
    if s != "" {
      if IsOctal(s[0]) {
        OctalIs(s[0], s[0] as int - '0' as int);
      }
      if GoesOn(s, 8) {
        var d :| 0 <= d < 16 && Writes(s[0], d, 8);
        OctalIs(s[0], d);
      }
    }
  }

  // ---- What the decoder makes of them ----

  lemma UnescapeBare(c: char, rest: string)
    requires Fits(Bare(c), rest)
    ensures Unescape([c] + rest) == [c] + Unescape(rest)
  {
    var s := [c] + rest;
    assert s[1..] == rest;
  }

  /** The escape at the front takes `n` characters and stands for c. */
  lemma UnescapeFront(s: string, c: char, n: nat, rest: string)
    requires |s| > 1 && s[0] == '\\' && ReadEscape(s) == (c, n) && s[n..] == rest
    ensures Unescape(s) == [c] + Unescape(rest)
  {
  }

  lemma UnescapeLetter(letter: char, rest: string)
    requires Fits(Letter(letter), rest)
    ensures Unescape(['\\', letter] + rest) == [Meaning(Letter(letter))] + Unescape(rest)
  {
    var s := ['\\', letter] + rest;
    assert s[1] == letter;
    UnescapeFront(s, Meaning(Letter(letter)), 2, rest);
  }

  lemma UnescapeSlashed(c: char, rest: string)
    requires Fits(Slashed(c), rest)
    ensures Unescape(['\\', c] + rest) == [c] + Unescape(rest)
  {
    var s := ['\\', c] + rest;
    assert s[1] == c && s[2..] == rest;
    GoesOnOctal([c]);
    GoesOnHex(rest);
    UnescapeFront(s, c, 2, rest);
  }

  lemma NumberOfOne(base: nat, a: nat)
    ensures Number([a], base) == a
  {
    assert [a][..0] == [];
  }

  lemma NumberOfTwo(base: nat, a: nat, b: nat)
    ensures Number([a, b], base) == a * base + b
  {
    assert [a, b][..1] == [a];
    NumberOfOne(base, a);
  }

  lemma NumberOfThree(base: nat, a: nat, b: nat, c: nat)
    ensures Number([a, b, c], base) == (a * base + b) * base + c
  {
    assert [a, b, c][..2] == [a, b];
    NumberOfTwo(base, a, b);
  }

  lemma ReadOctal(s: string)
    requires |s| > 1 && s[0] == '\\' && IsOctal(s[1])
    ensures var a := s[1] as int - '0' as int;
            ReadEscape(s) ==
            if |s| == 2 || !IsOctal(s[2]) then (Char(a), 2)
            else
              var b := s[2] as int - '0' as int;
              if |s| == 3 || !IsOctal(s[3]) then (Char(a * 8 + b), 3)
              else (Char((a * 8 + b) * 8 + s[3] as int - '0' as int), 4)
  {
  }

  lemma OctalNumber(text: string, digits: seq<nat>)
    requires 1 <= |text| <= 3 && AllWrite(text, digits, 8)
    ensures forall i :: 0 <= i < |text| ==> IsOctal(text[i]) && digits[i] == text[i] as int - '0' as int
    ensures |text| == 1 ==> Number(digits, 8) == digits[0]
    ensures |text| == 2 ==> Number(digits, 8) == digits[0] * 8 + digits[1]
    ensures |text| == 3 ==> Number(digits, 8) == (digits[0] * 8 + digits[1]) * 8 + digits[2]
  {
    forall i | 0 <= i < |text|
      ensures IsOctal(text[i]) && digits[i] == text[i] as int - '0' as int
    {
      OctalIs(text[i], digits[i]);
    }
    if |text| == 1 {
      assert digits == [digits[0]];
      NumberOfOne(8, digits[0]);
    } else if |text| == 2 {
      assert digits == [digits[0], digits[1]];
      NumberOfTwo(8, digits[0], digits[1]);
    } else {
      assert digits == [digits[0], digits[1], digits[2]];
      NumberOfThree(8, digits[0], digits[1], digits[2]);
    }
  }

  lemma UnescapeOctal(text: string, digits: seq<nat>, rest: string)
    requires Fits(Octal(text, digits), rest)
    ensures Unescape(['\\'] + text + rest) == [Char(Number(digits, 8))] + Unescape(rest)
  {
    var s := ['\\'] + text + rest;
    var n := |text|;
    assert s[n + 1..] == rest;
    assert forall i :: 0 <= i < n ==> s[i + 1] == text[i];
    OctalNumber(text, digits);
    GoesOnOctal(rest);
    ReadOctal(s);
    UnescapeFront(s, Char(Number(digits, 8)), n + 1, rest);
  }

  lemma UnescapeHex(text: string, digits: seq<nat>, rest: string)
    requires Fits(Hex(text, digits), rest)
    ensures Unescape(['\\', 'x'] + text + rest) == [Char(Number(digits, 16))] + Unescape(rest)
  {
    var s := ['\\', 'x'] + text + rest;
    var n := |text|;
    assert s[n + 2..] == rest;
    assert forall i :: 0 <= i < n ==> s[i + 2] == text[i];
    HexDigitIs(text[0], digits[0]);
    GoesOnHex(rest);
    if n == 1 {
      assert digits == [digits[0]];
      NumberOfOne(16, digits[0]);
    } else {
      HexDigitIs(text[1], digits[1]);
      assert digits == [digits[0], digits[1]];
      NumberOfTwo(16, digits[0], digits[1]);
    }
    UnescapeFront(s, Char(Number(digits, 16)), n + 2, rest);
  }

  lemma UnescapePiece(p: Piece, rest: string)
    requires Fits(p, rest)
    ensures Unescape(Spell(p) + rest) == [Meaning(p)] + Unescape(rest)
  {
    match p
    case Bare(c) => UnescapeBare(c, rest);
    case Letter(letter) => UnescapeLetter(letter, rest);
    case Slashed(c) => UnescapeSlashed(c, rest);
    case Octal(text, digits) => UnescapeOctal(text, digits, rest);
    case Hex(text, digits) => UnescapeHex(text, digits, rest);
  }

  /** Every spelling of a text is read as that text. */
  lemma {:induction false} EverySpellingReads(pieces: seq<Piece>)
    requires AllFit(pieces)
    ensures Unescape(Spelled(pieces)) == Meant(pieces)
  {
    if pieces != [] {
      EverySpellingReads(pieces[1..]);
      UnescapePiece(pieces[0], Spelled(pieces[1..]));
      assert Meant(pieces) == [Meaning(pieces[0])] + Meant(pieces[1..]);
    }
  }

  /** Three octal digits are a number in base eight, whatever follows them. */
  lemma ThreeOctalDigits(a: nat, b: nat, c: nat, rest: string)
    requires a < 8 && b < 8 && c < 8
    ensures Unescape(['\\', DIGITS[a], DIGITS[b], DIGITS[c]] + rest) == [(64 * a + 8 * b + c) as char] + Unescape(rest)
  {
    var text := [DIGITS[a], DIGITS[b], DIGITS[c]];
    assert ['\\'] + text == ['\\', DIGITS[a], DIGITS[b], DIGITS[c]];
    NumberOfThree(8, a, b, c);
    UnescapeOctal(text, [a, b, c], rest);
  }

  /** The piece a text that is not empty begins with. */
  lemma FirstPiece(s: string) returns (p: Piece, rest: string)
    requires s != ""
    ensures s == Spell(p) + rest && Fits(p, rest)
  {
    if s[0] != '\\' || |s| == 1 {
      p, rest := Bare(s[0]), s[1..];
    } else if s[1] in LETTERS {
      p, rest := Letter(s[1]), s[2..];
    } else if s[1] == 'x' && GoesOn(s[2..], 16) {
      GoesOnHex(s[2..]);
      p, rest := FirstHex(s);
    } else if GoesOn([s[1]], 8) {
      p, rest := FirstOctal(s);
    } else {
      p, rest := Slashed(s[1]), s[2..];
    }
  }

  lemma FirstHex(s: string) returns (p: Piece, rest: string)
    requires |s| > 2 && s[0] == '\\' && s[1] == 'x' && GoesOn(s[2..], 16)
    ensures s == Spell(p) + rest && Fits(p, rest)
  {
    var a :| 0 <= a < 16 && Writes(s[2], a, 16);
    if GoesOn(s[3..], 16) {
      var b :| 0 <= b < 16 && Writes(s[3], b, 16);
      p, rest := Hex(s[2..4], [a, b]), s[4..];
    } else {
      p, rest := Hex(s[2..3], [a]), s[3..];
    }
  }

  lemma FirstOctal(s: string) returns (p: Piece, rest: string)
    requires |s| > 1 && s[0] == '\\' && GoesOn([s[1]], 8)
    ensures s == Spell(p) + rest && Fits(p, rest)
  {
    var a :| 0 <= a < 16 && Writes(s[1], a, 8);
    if !GoesOn(s[2..], 8) {
      p, rest := Octal([s[1]], [a]), s[2..];
    } else {
      var b :| 0 <= b < 16 && Writes(s[2], b, 8);
      if !GoesOn(s[3..], 8) {
        p, rest := Octal([s[1], s[2]], [a, b]), s[3..];
        assert AllWrite([s[1], s[2]], [a, b], 8);
      } else {
        var c :| 0 <= c < 16 && Writes(s[3], c, 8);
        p, rest := Octal([s[1], s[2], s[3]], [a, b, c]), s[4..];
        assert AllWrite([s[1], s[2], s[3]], [a, b, c], 8);
      }
    }
    assert s == Spell(p) + rest;
  }

  /** Every text is such a spelling, so what a text is read as is what its pieces mean and nothing else. */
  lemma {:induction false} EveryTextIsSpelled(s: string) returns (pieces: seq<Piece>)
    ensures AllFit(pieces) && Spelled(pieces) == s && Unescape(s) == Meant(pieces)
    decreases |s|
  {
    pieces := [];
    if s != "" {
      var p, rest := FirstPiece(s);
      var others := EveryTextIsSpelled(rest);
      pieces := [p] + others;
      assert pieces[1..] == others;
      EverySpellingReads(pieces);
    }
  }

  // ---- Which spelling the encoder chooses ----

  /** The control characters with a letter of their own. */
  predicate HasLetter(c: char) {
    8 <= c as int <= 13
  }

  /** The encoder escapes the backslash, those control characters, each with its letter, and the delimiter;
      every other character it writes as it is. */
  predicate ChosenFor(d: char, c: char, p: Piece) {
    && Meaning(p) == c
    && (p.Letter? <==> HasLetter(c)) && (p.Slashed? <==> c == '\\' || (c == d && !HasLetter(c)))
    && !p.Octal? && !p.Hex?
  }

  function Choice(d: char, c: char): Piece {
    if EscapeLetter(c).Some? && c != '\\' then Letter(EscapeLetter(c).value)
    else if c == '\\' || c == d then Slashed(c)
    else Bare(c)
  }

  function Choices(d: char, s: string): seq<Piece> {
    seq(|s|, i requires 0 <= i < |s| => Choice(d, s[i]))
  }

  lemma ChoiceFits(d: char, c: char, rest: string)
    requires !Garbling(d)
    ensures Fits(Choice(d, c), rest) && Spell(Choice(d, c)) == EscapeChar(d, c) && ChosenFor(d, c, Choice(d, c))
  {
    GoesOnOctal([c]);
  }

  lemma {:induction false} EncoderSpells(d: char, s: string)
    requires !Garbling(d)
    ensures Spelled(Choices(d, s)) == EscapeText(d, s) && AllFit(Choices(d, s)) && Meant(Choices(d, s)) == s
    ensures forall i :: 0 <= i < |s| ==> ChosenFor(d, s[i], Choices(d, s)[i])
  {
    if s != "" {
      EncoderSpells(d, s[1..]);
      assert Choices(d, s) == [Choice(d, s[0])] + Choices(d, s[1..]);
      ChoiceFits(d, s[0], Spelled(Choices(d, s[1..])));
      forall i | 0 <= i < |s|
        ensures ChosenFor(d, s[i], Choices(d, s)[i])
      {
        ChoiceFits(d, s[i], "");
      }
      assert Meant(Choices(d, s)) == s;
    } else {
      assert Meant(Choices(d, s)) == s;
    }
  }
}
