/** Escaping of the sync token and the sync-collection request that carries it (internal/caldav/webdavsync.go). */
module XmlEscape {
  import opened CalendarData

  /** strings.ReplaceAll for a pattern of one character. */
  function ReplaceAll(s: string, c: char, text: string): string {
    if s == "" then "" else (if s[0] == c then text else [s[0]]) + ReplaceAll(s[1..], c, text)
  }

  function Escape(s: string): string {
    var s1 := ReplaceAll(s, '&', "&amp;");
    var s2 := ReplaceAll(s1, '<', "&lt;");
    var s3 := ReplaceAll(s2, '>', "&gt;");
    var s4 := ReplaceAll(s3, '\'', "&apos;");
    ReplaceAll(s4, '"', "&quot;")
  }

  const ENTITIES := ["&amp;", "&lt;", "&gt;", "&apos;", "&quot;"]

  function EscapedChar(c: char): string {
    match c
    case '&' => "&amp;"
    case '<' => "&lt;"
    case '>' => "&gt;"
    case '\'' => "&apos;"
    case '"' => "&quot;"
    case _ => [c]
  }

  /** Escaping character by character. */
  function OnePass(s: string): string {
    if s == "" then "" else EscapedChar(s[0]) + OnePass(s[1..])
  }

  lemma {:induction false} ReplaceAppends(a: string, b: string, c: char, text: string)
    ensures ReplaceAll(a + b, c, text) == ReplaceAll(a, c, text) + ReplaceAll(b, c, text)
  {
    if a == "" {
      assert a + b == b;
    } else {
      assert (a + b)[1..] == a[1..] + b;
      ReplaceAppends(a[1..], b, c, text);
    }
  }

  lemma {:induction false} ReplaceNothing(s: string, c: char, text: string)
    requires c !in s
    ensures ReplaceAll(s, c, text) == s
  {
    if s != "" {
      assert c !in s[1..];
      ReplaceNothing(s[1..], c, text);
    }
  }

  lemma ReplaceOne(c: char, text: string)
    ensures ReplaceAll([c], c, text) == text
  {
  }

  lemma EscapeAppends(a: string, b: string)
    ensures Escape(a + b) == Escape(a) + Escape(b)
  {
    hide ReplaceAll;
    ReplaceAppends(a, b, '&', "&amp;");
    var a1, b1 := ReplaceAll(a, '&', "&amp;"), ReplaceAll(b, '&', "&amp;");
    ReplaceAppends(a1, b1, '<', "&lt;");
    var a2, b2 := ReplaceAll(a1, '<', "&lt;"), ReplaceAll(b1, '<', "&lt;");
    ReplaceAppends(a2, b2, '>', "&gt;");
    var a3, b3 := ReplaceAll(a2, '>', "&gt;"), ReplaceAll(b2, '>', "&gt;");
    ReplaceAppends(a3, b3, '\'', "&apos;");
    var a4, b4 := ReplaceAll(a3, '\'', "&apos;"), ReplaceAll(b3, '\'', "&apos;");
    ReplaceAppends(a4, b4, '"', "&quot;");
  }

  /** One replacement: `c` becomes `by`, anything without `c` is kept. */
  lemma Replaces(s: string, c: char, text: string)
    ensures s == [c] ==> ReplaceAll(s, c, text) == text
    ensures c !in s ==> ReplaceAll(s, c, text) == s
  {
    if c !in s {
      ReplaceNothing(s, c, text);
    } else if s == [c] {
      ReplaceOne(c, text);
    }
  }

  lemma EscapeOneChar(c: char)
    ensures Escape([c]) == EscapedChar(c)
  {
    hide ReplaceAll;
    var s := [c];
    var s1 := ReplaceAll(s, '&', "&amp;");
    var s2 := ReplaceAll(s1, '<', "&lt;");
    var s3 := ReplaceAll(s2, '>', "&gt;");
    var s4 := ReplaceAll(s3, '\'', "&apos;");
    Replaces(s, '&', "&amp;");
    Replaces(s1, '<', "&lt;");
    Replaces(s2, '>', "&gt;");
    Replaces(s3, '\'', "&apos;");
    Replaces(s4, '"', "&quot;");
  }

  /** The five whole-string replacements amount to one pass: none of them touches what an earlier one wrote. */
  lemma {:induction false} EscapeIsOnePass(s: string)
    ensures Escape(s) == OnePass(s)
  {
    hide Escape;
    if s == "" {
      EscapeNothing();
    } else {
      assert s == [s[0]] + s[1..];
      EscapeAppends([s[0]], s[1..]);
      EscapeOneChar(s[0]);
      EscapeIsOnePass(s[1..]);
    }
  }

  lemma EscapeNothing()
    ensures Escape("") == ""
  {
  }

  predicate IsRaw(c: char) {
    c == '<' || c == '>' || c == '\'' || c == '"'
  }

  lemma {:induction false} OnePassIsClean(s: string)
    ensures forall c :: c in OnePass(s) ==> !IsRaw(c)
    ensures forall i :: 0 <= i < |OnePass(s)| && OnePass(s)[i] == '&' ==>
      exists e :: e in ENTITIES && e <= OnePass(s)[i..]
  {
    if s != "" {
      OnePassIsClean(s[1..]);
      var head, rest := EscapedChar(s[0]), OnePass(s[1..]);
      forall i | 0 <= i < |head + rest| && (head + rest)[i] == '&'
        ensures exists e :: e in ENTITIES && e <= (head + rest)[i..]
      {
        if i < |head| {
          EntityStarts(s[0], rest, i);
        } else {
          assert rest[i - |head|] == '&';
          assert (head + rest)[i..] == rest[i - |head|..];
        }
      }
    }
  }

  lemma EntityStarts(c: char, rest: string, i: nat)
    requires i < |EscapedChar(c)| && EscapedChar(c)[i] == '&'
    ensures i == 0 && exists e :: e in ENTITIES && e <= (EscapedChar(c) + rest)[i..]
  {
    var e := EscapedChar(c);
    assert i == 0;
    assert e == ENTITIES[if c == '&' then 0 else if c == '<' then 1 else if c == '>' then 2 else if c == '\'' then 3
    else 4];
    assert e in ENTITIES && e <= (e + rest)[0..];
  }

  /** The output has no raw markup character, and every ampersand starts a predefined entity (section 4.6 of XML 1.0).
      */
  lemma EscapedIsClean(s: string)
    ensures forall c :: c in Escape(s) ==> !IsRaw(c)
    ensures forall i :: 0 <= i < |Escape(s)| && Escape(s)[i] == '&' ==> exists e :: e in ENTITIES && e <= Escape(s)[i..]
  {
    hide Escape, OnePass;
    EscapeIsOnePass(s);
    OnePassIsClean(s);
  }

  // ---- Reading it back ----

  /** The character a predefined entity stands for, and how long its name is. */
  function Entity(s: string): Option<(char, nat)> {
    if "&amp;" <= s then Some(('&', 5))
    else if "&lt;" <= s then Some(('<', 4))
    else if "&gt;" <= s then Some(('>', 4))
    else if "&apos;" <= s then Some(('\'', 6))
    else if "&quot;" <= s then Some(('"', 6))
    else None
  }

  /** Replaces the predefined entities in character data; absent when the text is not well-formed. */
  function Decode(s: string): Option<string>
    decreases |s|
  {
    if s == "" then Some("")
    else if s[0] == '<' then None
    else if s[0] != '&' then
      var rest := Decode(s[1..]);
      if rest.None? then None else Some([s[0]] + rest.value)
    else
      var entity := Entity(s);
      if entity.None? || entity.value.1 > |s| || entity.value.1 == 0 then None
      else
        var rest := Decode(s[entity.value.1..]);
        if rest.None? then None else Some([entity.value.0] + rest.value)
  }

  lemma EntityOfEscaped(c: char, rest: string)
    requires c == '&' || IsRaw(c)
    ensures Entity(EscapedChar(c) + rest) == Some((c, |EscapedChar(c)|))
  {
    var s := EscapedChar(c) + rest;
    assert EscapedChar(c) <= s;
    assert s[1] == EscapedChar(c)[1] && s[2] == EscapedChar(c)[2];
  }

  lemma {:induction false} DecodeOnePass(s: string)
    ensures Decode(OnePass(s)) == Some(s)
  {
    if s != "" {
      var c, rest := s[0], OnePass(s[1..]);
      DecodeOnePass(s[1..]);
      assert s == [c] + s[1..];
      if c == '&' || IsRaw(c) {
        EntityOfEscaped(c, rest);
        assert (EscapedChar(c) + rest)[|EscapedChar(c)|..] == rest;
      } else {
        assert ([c] + rest)[1..] == rest;
      }
    }
  }

  /** The characters that XML allows (section 2.2 of XML 1.0). */
  predicate IsXmlChar(c: char) {
    var n := c as int;
    n == 0x9 || n == 0xA || n == 0xD || 0x20 <= n <= 0xD7FF || 0xE000 <= n <= 0xFFFD || 0x1_0000 <= n <= 0x10_FFFF
  }

  /** Line ends as an XML reader passes them on (section 2.11 of XML 1.0). */
  function NormaliseLineEnds(s: string): string {
    if s == "" then ""
    else if s[0] == '\r' then "\n" + NormaliseLineEnds(if |s| > 1 && s[1] == '\n' then s[2..] else s[1..])
    else [s[0]] + NormaliseLineEnds(s[1..])
  }

  /** An XML reader's view of character data. */
  function ReadText(text: string): Option<string> {
    if forall c :: c in text ==> IsXmlChar(c) then Decode(NormaliseLineEnds(text)) else None
  }

  lemma {:induction false} NormalisedHasNoReturns(s: string)
    ensures '\r' !in NormaliseLineEnds(s)
    ensures '\r' !in s ==> NormaliseLineEnds(s) == s
    decreases |s|
  {
    if s != "" {
      NormalisedHasNoReturns(s[1..]);
      if |s| > 1 {
        NormalisedHasNoReturns(s[2..]);
      }
    }
  }

  lemma {:induction false} DecodedChars(s: string)
    ensures Decode(s).Some? ==> forall c :: c in Decode(s).value ==> c in s || c == '&' || IsRaw(c)
    decreases |s|
  {
    if s != "" && s[0] != '<' {
      if s[0] != '&' {
        DecodedChars(s[1..]);
      } else if Entity(s).Some? && 0 < Entity(s).value.1 <= |s| {
        DecodedChars(s[Entity(s).value.1..]);
      }
    }
  }

  lemma {:induction false} OnePassChars(s: string)
    ensures '\r' in OnePass(s) <==> '\r' in s
    ensures (forall c :: c in OnePass(s) ==> IsXmlChar(c)) <==> (forall c :: c in s ==> IsXmlChar(c))
  {
    if s != "" {
      var head, rest := s[0], OnePass(s[1..]);
      assert s == [head] + s[1..];
      OnePassChars(s[1..]);
      OneEscapedChar(head);
      assert forall c :: c in EscapedChar(head) + rest <==> c in EscapedChar(head) || c in rest;
    }
  }

  lemma OneEscapedChar(c: char)
    ensures '\r' in EscapedChar(c) <==> c == '\r'
    ensures (forall d :: d in EscapedChar(c) ==> IsXmlChar(d)) <==> IsXmlChar(c)
  {
    if c == '&' || IsRaw(c) {
      assert IsXmlChar(c);
    } else {
      assert EscapedChar(c) == [c];
    }
  }

  /** A reader gets back the escaped text if and only if it has only characters that XML allows and no carriage
      return. */
  lemma TextIsReadIff(s: string)
    ensures ReadText(Escape(s)) == Some(s) <==> '\r' !in s && forall c :: c in s ==> IsXmlChar(c)
  {
    hide Escape, OnePass, Decode, NormaliseLineEnds, IsXmlChar;
    EscapeIsOnePass(s);
    OnePassChars(s);
    DecodeOnePass(s);
    NormalisedHasNoReturns(Escape(s));
    DecodedChars(NormaliseLineEnds(Escape(s)));
  }

  /** Decoding gives back the input. */
  lemma DecodeEscaped(s: string)
    ensures Decode(Escape(s)) == Some(s)
  {
    hide Escape, OnePass, Decode;
    EscapeIsOnePass(s);
    DecodeOnePass(s);
  }

  // ---- The request ----

  const REQUEST_HEAD := "<?xml version=\"1.0\" encoding=\"utf-8\" ?>\n"
    + "<D:sync-collection xmlns:D=\"DAV:\" xmlns:C=\"urn:ietf:params:xml:ns:caldav\">\n  "
  const REQUEST_TAIL :=
    "\n  <D:sync-level>1</D:sync-level>\n  <D:prop>\n    <D:getetag/>\n"
    + "    <C:calendar-data/>\n  </D:prop>\n</D:sync-collection>"
  const OPEN_TAG := "<D:sync-token>"
  const CLOSE_TAG := "</D:sync-token>"
  const EMPTY_TAG := "<D:sync-token/>"

  function TokenElement(token: string): string {
    if token != "" then OPEN_TAG + Escape(token) + CLOSE_TAG else EMPTY_TAG
  }

  function BuildSyncCollectionRequest(token: string): string {
    REQUEST_HEAD + TokenElement(token) + REQUEST_TAIL
  }

  /** The character data up to the next markup. */
  function UpToMarkup(s: string): (r: string)
    ensures r <= s
  {
    if s == "" || s[0] == '<' then "" else [s[0]] + UpToMarkup(s[1..])
  }

  /** The server's reading of the sync-token element that `s` starts with. */
  function ReadTokenElement(s: string): Option<string> {
    if EMPTY_TAG <= s then Some("")
    else if OPEN_TAG <= s then
      var text := UpToMarkup(s[|OPEN_TAG|..]);
      if CLOSE_TAG <= s[|OPEN_TAG|..][|text|..] then ReadText(text) else None
    else None
  }

  function ReadToken(body: string): Option<string> {
    if REQUEST_HEAD <= body then ReadTokenElement(body[|REQUEST_HEAD|..]) else None
  }

  lemma {:induction false} MarkupEndsText(text: string, rest: string)
    requires (forall c :: c in text ==> !IsRaw(c)) && rest != "" && rest[0] == '<'
    ensures UpToMarkup(text + rest) == text
  {
    if text == "" {
      assert text + rest == rest;
    } else {
      assert !IsRaw(text[0]);
      assert (text + rest)[1..] == text[1..] + rest;
      MarkupEndsText(text[1..], rest);
    }
  }

  lemma ElementIsRead(token: string, tail: string)
    ensures ReadTokenElement(TokenElement(token) + tail) == if token == "" then Some("") else ReadText(Escape(token))
  {
    hide Escape, ReadText, UpToMarkup, OPEN_TAG, CLOSE_TAG, EMPTY_TAG;
    if token == "" {
      DropsHead("", EMPTY_TAG, tail);
    } else {
      var text := Escape(token);
      EscapedIsClean(token);
      TagsDiffer(text + CLOSE_TAG + tail);
      MarkupEndsText(text, CLOSE_TAG + tail);
      DropsHead(OPEN_TAG, text, CLOSE_TAG + tail);
      DropsHead(text, CLOSE_TAG, tail);
      assert TokenElement(token) + tail == OPEN_TAG + text + (CLOSE_TAG + tail);
      assert text + (CLOSE_TAG + tail) == text + CLOSE_TAG + tail;
    }
  }

  lemma TagsDiffer(rest: string)
    ensures !(EMPTY_TAG <= OPEN_TAG + rest)
    ensures CLOSE_TAG != "" && CLOSE_TAG[0] == '<'
  {
    assert EMPTY_TAG[13] == '/' && (OPEN_TAG + rest)[13] == OPEN_TAG[13] == '>';
  }

  /** The server reads back exactly the stored token if and only if that has only characters that XML allows and no
      carriage return. */
  lemma RequestCarriesTokenIff(token: string)
    ensures ReadToken(BuildSyncCollectionRequest(token)) == Some(token)
      <==> '\r' !in token && forall c :: c in token ==> IsXmlChar(c)
  {
    hide TokenElement, ReadTokenElement, REQUEST_HEAD, REQUEST_TAIL, Escape, ReadText, IsXmlChar;
    ElementIsRead(token, REQUEST_TAIL);
    DropsHead(REQUEST_HEAD, TokenElement(token), REQUEST_TAIL);
    TextIsReadIff(token);
  }

  lemma DropsHead(head: string, element: string, tail: string)
    ensures head <= head + element + tail && (head + element + tail)[|head|..] == element + tail
  {
  }
}
