/**
 * The MarkdownV2 escaper the bot applies to every name, prompt and score it
 * puts into a chat message.
 */
module Markdown {
  import opened Text

  /** The characters Telegram's MarkdownV2 reserves; the backslash is not among them. */
  const Special: string := "_*[]()~`>#+-=|{}.!"

  predicate IsSpecial(c: char)
  {
    c in Special
  }

  /** One input character, escaped. */
  function EscapeChar(c: char): (r: string)
    ensures IsSpecial(c) ==> r == ['\\', c]
    ensures !IsSpecial(c) ==> r == [c]
  {
    if IsSpecial(c) then ['\\', c] else [c]
  }

  /** The join over the characters of a text, each escaped on its own. */
  function Escape(s: string): (r: string)
    ensures |r| >= |s|
    ensures r == [] <==> s == []
  {
    if s == [] then [] else EscapeChar(s[0]) + Escape(s[1..])
  }

  /** The inverse reading: a backslash followed by a reserved character stands for that character. */
  function Unescape(r: string): string
    decreases |r|
  {
    if r == [] then []
    else if |r| >= 2 && r[0] == '\\' && IsSpecial(r[1]) then [r[1]] + Unescape(r[2..])
    else [r[0]] + Unescape(r[1..])
  }

  /** Escaped text never starts with a reserved character. */
  lemma EscapeHeadNotSpecial(s: string)
    requires s != []
    ensures !IsSpecial(Escape(s)[0])
  {
    assert !IsSpecial('\\');
  }

  /** Escaping is lossless: reading back the escaped text gives the original. */
  lemma {:induction false} EscapeRoundTrip(s: string)
    ensures Unescape(Escape(s)) == s
  {
    if s != [] {
      var c, rest := s[0], s[1..];
      var tail := Escape(rest);
      assert Escape(s) == EscapeChar(c) + tail;
      EscapeRoundTrip(rest);
      if rest != [] {
        EscapeHeadNotSpecial(rest);
      }
      if IsSpecial(c) {
        UnescapePair(c, tail);
      } else {
        UnescapeSingle(c, tail);
      }
    }
  }

  lemma UnescapePair(c: char, tail: string)
    requires IsSpecial(c)
    ensures Unescape(['\\', c] + tail) == [c] + Unescape(tail)
  {
    assert (['\\', c] + tail)[2..] == tail;
  }

  lemma UnescapeSingle(c: char, tail: string)
    requires !IsSpecial(c) && (tail != [] ==> !IsSpecial(tail[0]))
    ensures Unescape([c] + tail) == [c] + Unescape(tail)
  {
    assert ([c] + tail)[1..] == tail;
  }

  /** Escaping works character by character: it distributes over concatenation. */
  lemma {:induction false} EscapeConcat(a: string, b: string)
    ensures Escape(a + b) == Escape(a) + Escape(b)
  {
    if a != [] {
      assert (a + b)[1..] == a[1..] + b;
      EscapeConcat(a[1..], b);
    } else {
      assert a + b == b;
    }
  }

  /**
   * Position by position: the character at index i of the input appears in
   * the output preceded by exactly one backslash when it is reserved, and
   * alone otherwise, between the escaped prefix and the escaped suffix.
   */
  lemma {:induction false} EscapeAt(s: string, i: nat)
    requires i < |s|
    ensures Escape(s) == Escape(s[..i]) + EscapeChar(s[i]) + Escape(s[i + 1..])
  {
    var pre, rest := s[..i], s[i + 1..];
    var mid := [s[i]] + rest;
    assert s == pre + mid;
    EscapeConcat(pre, mid);
    assert mid[0] == s[i] && mid[1..] == rest;
    assert Escape(mid) == EscapeChar(s[i]) + Escape(rest);
  }

  /** What the escaper is given: a string, or a number such as a score. */
  datatype Printable = Str(s: string) | Num(n: int)

  /** `str(v)` */
  function Render(v: Printable): string
  {
    match v
    case Str(s) => s
    case Num(n) => IntToString(n)
  }

  /** Python truthiness: the empty string and the number 0 are false. */
  predicate Falsy(v: Printable)
  {
    v == Str("") || v == Num(0)
  }

  /**
   * escape_markdown_v2 as written: any falsy argument gives "", so a score
   * of 0 disappears from the message; any other argument is rendered and
   * escaped character by character.
   */
  function EscapeMarkdownV2(v: Printable): (r: string)
    ensures Falsy(v) ==> r == ""
    ensures !Falsy(v) ==> r != [] && Unescape(r) == Render(v)
  {
    if Falsy(v) then ""
    else
      EscapeRoundTrip(Render(v));
      Escape(Render(v))
  }

  /** The escaper as evidently intended: every argument, 0 included, is rendered and escaped. */
  function EscapeMarkdownV2Intended(v: Printable): (r: string)
    ensures Unescape(r) == Render(v)
    ensures r == "" <==> v == Str("")
  {
    EscapeRoundTrip(Render(v));
    Escape(Render(v))
  }

  /** The discrepancy: a zero score is printed as nothing, where "0" is meant. */
  lemma ZeroScorePrintsBlank()
    ensures EscapeMarkdownV2(Num(0)) == ""
    ensures EscapeMarkdownV2Intended(Num(0)) == "0"
  {
    assert Render(Num(0)) == "0";
    assert Escape("0") == EscapeChar('0') + Escape("");
    assert !IsSpecial('0');
  }

  /** Both agree on every argument other than 0. */
  lemma IntendedAgreesExceptZero(v: Printable)
    requires v != Num(0)
    ensures EscapeMarkdownV2(v) == EscapeMarkdownV2Intended(v)
  {
  }
}
