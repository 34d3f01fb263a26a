/**
 Continuation cursors: the sort tuple of the last row as JSON text, bound to the query that made
 it.  Texts are sequences of Unicode scalar values; the base64 form of the payload enters with its
 length, since only that is tested.
 */
module Cursors {
  import opened Options
  import opened Paging

  const MAX_CURSOR := 2048

  /** What the cursor is bound to: the digest of the normalized query, its sort and direction. */
  datatype Query = Query(fingerprint: string, sort: string, direction: string)

  type Key = Row<string, string>

  // ---------------------------------------------------------------- sizes

  function Utf8(c: char): nat { if c as int < 0x80 then 1 else if c as int < 0x800 then 2 else if c as int < 0x1_0000 then 3 else 4 }

  function Bytes(s: string): nat { if s == "" then 0 else Utf8(s[0]) + Bytes(s[1..]) }

  /** The bits a UTF-8 sequence of so many bytes has room for. */
  function Capacity(bytes: nat): nat { if bytes == 0 then 0 else if bytes == 1 then 7 else 5 * bytes + 1 }

  function TwoTo(bits: nat): nat { if bits == 0 then 1 else 2 * TwoTo(bits - 1) }

  /** A character takes the shortest sequence of one to four bytes that has room for it. */
  lemma Utf8Shortest(c: char)
    ensures 1 <= Utf8(c) <= 4 && (c as int) < TwoTo(Capacity(Utf8(c)))
    ensures Utf8(c) > 1 ==> TwoTo(Capacity(Utf8(c) - 1)) <= c as int
  {
    assert TwoTo(3) == 8 && TwoTo(7) == 16 * TwoTo(3) && TwoTo(11) == 16 * TwoTo(7);
    assert TwoTo(15) == 16 * TwoTo(11) && TwoTo(16) == 2 * TwoTo(15) && TwoTo(20) == 16 * TwoTo(16) && TwoTo(21) == 2 * TwoTo(20);
  }

  /** The length of n bytes in base64 without padding. */
  function Base64Length(n: nat): nat { n / 3 * 4 + (n % 3 * 8 + 5) / 6 }

  // ---------------------------------------------------------------- texts in JSON

  function HexDigit(n: nat): char
    requires n < 16
  {
    "0123456789abcdef"[n]
  }

  function HexValue(c: char): Option<nat> {
    if '0' <= c <= '9' then Some(c as int - '0' as int)
    else if 'a' <= c <= 'f' then Some(c as int - 'a' as int + 10)
    else if 'A' <= c <= 'F' then Some(c as int - 'A' as int + 10)
    else None
  }

  /** Characters written as a reverse solidus and one more character. */
  function Short(c: char): Option<char> {
    match c
    case '\"' => Some('\"')
    case '\\' => Some('\\')
    case '\U{0008}' => Some('b')
    case '\U{000C}' => Some('f')
    case '\n' => Some('n')
    case '\r' => Some('r')
    case '\t' => Some('t')
    case _ => None
  }

  /** Characters written as four hexadecimal digits: the other controls, the three characters with
      a meaning in HTML and the two line separators. */
  predicate Long(c: char) {
    Short(c).None? && (c < ' ' || c in {'<', '>', '&', '\U{2028}', '\U{2029}'})
  }

  function EscapeChar(c: char): string {
    if Short(c).Some? then ['\\', Short(c).value]
    else if Long(c) then
      var n := c as int;
      ['\\', 'u', HexDigit(n / 4096), HexDigit(n / 256 % 16), HexDigit(n / 16 % 16), HexDigit(n % 16)]
    else [c]
  }

  function Escape(s: string): string { if s == "" then "" else EscapeChar(s[0]) + Escape(s[1..]) }

  function Unshort(c: char): Option<char> {
    match c
    case '\"' => Some('\"')
    case '\\' => Some('\\')
    case '/' => Some('/')
    case 'b' => Some('\U{0008}')
    case 'f' => Some('\U{000C}')
    case 'n' => Some('\n')
    case 'r' => Some('\r')
    case 't' => Some('\t')
    case _ => None
  }

  /** The character four hexadecimal digits stand for; halves of surrogate pairs are left out. */
  function Unlong(digits: string): Option<char>
    requires |digits| == 4
  {
    var a, b, c, d := HexValue(digits[0]), HexValue(digits[1]), HexValue(digits[2]), HexValue(digits[3]);
    if a.None? || b.None? || c.None? || d.None? then None
    else
      var n := a.value * 4096 + b.value * 256 + c.value * 16 + d.value;
      if n < 0xD800 || 0xE000 <= n < 0x1_0000 then Some(n as char) else None
  }

  datatype Read = Read(text: string, rest: string)

  function Prepend(c: char, r: Option<Read>): Option<Read> {
    if r.None? then None else Some(Read([c] + r.value.text, r.value.rest))
  }

  /** A JSON text up to its closing quotation mark, and what follows that mark. */
  function ReadText(s: string): Option<Read>
    decreases |s|
  {
    if s == "" || s[0] < ' ' then None
    else if s[0] == '\"' then Some(Read("", s[1..]))
    else if s[0] != '\\' then Prepend(s[0], ReadText(s[1..]))
    else if |s| >= 6 && s[1] == 'u' then
      var c := Unlong(s[2..6]);
      if c.None? then None else Prepend(c.value, ReadText(s[6..]))
    else if |s| >= 2 then
      var c := Unshort(s[1]);
      if c.None? then None else Prepend(c.value, ReadText(s[2..]))
    else None
  }

  lemma HexDigitValue(n: nat)
    requires n < 16
    ensures HexValue(HexDigit(n)) == Some(n)
  {
  }

  lemma Hexadecimal(n: nat)
    requires n < 0x1_0000
    ensures n / 4096 < 16 && n == n / 4096 * 4096 + n / 256 % 16 * 256 + n / 16 % 16 * 16 + n % 16
  {
    assert n / 16 == n / 256 * 16 + n / 16 % 16;
    assert n / 256 == n / 4096 * 16 + n / 256 % 16;
  }

  lemma LongRead(c: char)
    requires Long(c)
    ensures |EscapeChar(c)| == 6 && EscapeChar(c)[..2] == "\\u" && Unlong(EscapeChar(c)[2..6]) == Some(c)
  {
    hide HexDigit, HexValue;
    var n := c as int;
    Hexadecimal(n);
    var a, b, d, e := n / 4096, n / 256 % 16, n / 16 % 16, n % 16;
    HexDigitValue(a);
    HexDigitValue(b);
    HexDigitValue(d);
    HexDigitValue(e);
    assert EscapeChar(c)[2..6] == [HexDigit(a), HexDigit(b), HexDigit(d), HexDigit(e)];
    assert n < 0xD800;
  }

  lemma ReadEscaped(c: char, rest: string)
    ensures ReadText(EscapeChar(c) + rest) == Prepend(c, ReadText(rest))
  {
    var e := EscapeChar(c);
    var s := e + rest;
    assert s[|e|..] == rest;
    if Long(c) {
      LongRead(c);
      assert s[2..6] == e[2..6];
    }
  }

  /** Reading back what was escaped gives the text, whatever follows it. */
  lemma {:induction false} EscapedReadsBack(text: string, rest: string)
    ensures ReadText(Escape(text) + "\"" + rest) == Some(Read(text, rest))
  {
    if text == "" {
      assert (Escape(text) + "\"" + rest)[1..] == rest;
    } else {
      EscapedReadsBack(text[1..], rest);
      var tail := Escape(text[1..]) + "\"" + rest;
      ReadEscaped(text[0], tail);
      assert Escape(text) + "\"" + rest == EscapeChar(text[0]) + tail;
      assert text == [text[0]] + text[1..];
    }
  }

  // ---------------------------------------------------------------- the payload

  const LABELS: seq<string> := ["{\"v\":1,\"f\":\"", ",\"s\":\"", ",\"d\":\"", ",\"k\":\"", ",\"i\":\""]

  function WriteMembers(labels: seq<string>, values: seq<string>): string
    requires |labels| == |values|
  {
    if labels == [] then "}" else labels[0] + (Escape(values[0]) + "\"" + WriteMembers(labels[1..], values[1..]))
  }

  function ReadMembers(labels: seq<string>, s: string): Option<seq<string>> {
    if labels == [] then (if s == "}" then Some([]) else None)
    else if !(labels[0] <= s) then None
    else
      var first := ReadText(s[|labels[0]|..]);
      if first.None? then None
      else
        var others := ReadMembers(labels[1..], first.value.rest);
        if others.None? then None else Some([first.value.text] + others.value)
  }

  function Values(q: Query, r: Key): seq<string> { [q.fingerprint, q.sort, q.direction, r.key, r.id] }

  function Payload(q: Query, r: Key): string { WriteMembers(LABELS, Values(q, r)) }

  /** The limits on what a cursor may carry, beside its own length. */
  predicate Carries(r: Key) { 1 <= Bytes(r.key) <= 1000 && 1 <= Bytes(r.id) <= 200 }

  /** Decoding for the query q.  A payload is refused when its base64 form is too long, when it was
      made for another query, or when it carries an empty or an oversized text. */
  function DecodeCursor(q: Query, payload: string): Option<Key> {
    if Base64Length(Bytes(payload)) > MAX_CURSOR then None
    else
      var m := ReadMembers(LABELS, payload);
      if m.None? || |m.value| != 5 || m.value[..3] != [q.fingerprint, q.sort, q.direction] then None
      else
        var r := Row(m.value[3], m.value[4]);
        if Carries(r) then Some(r) else None
  }

  lemma {:induction false} MembersReadBack(labels: seq<string>, values: seq<string>, x: string)
    requires |labels| == |values|
    ensures ReadMembers(labels, WriteMembers(labels, values) + x) == if x == "" then Some(values) else None
  {
    hide Escape, ReadText;
    if labels != [] {
      var rest := WriteMembers(labels[1..], values[1..]) + x;
      var s := WriteMembers(labels, values) + x;
      MembersReadBack(labels[1..], values[1..], x);
      EscapedReadsBack(values[0], rest);
      assert s[|labels[0]|..] == Escape(values[0]) + "\"" + rest;
      assert values == [values[0]] + values[1..];
    } else if x != "" {
      assert |"}" + x| > |"}"|;
    }
  }

  /** Whether the cursor made from row r for the query q can be used to go on. */
  predicate Decodes(q: Query, r: Key) { Carries(r) && Base64Length(Bytes(Payload(q, r))) <= MAX_CURSOR }

  /** A cursor decodes to the very row it was made from, for the very query it was made for and no
      other, exactly if it stays within the limits; with anything behind it, never. */
  lemma CursorRoundTrip(q: Query, made: Query, r: Key, x: string)
    ensures DecodeCursor(q, Payload(made, r)) == if q == made && Decodes(made, r) then Some(r) else None
    ensures x != "" ==> DecodeCursor(q, Payload(made, r) + x) == None
  {
    hide Base64Length, Bytes, ReadMembers, WriteMembers;
    MembersReadBack(LABELS, Values(made, r), x);
    MembersReadBack(LABELS, Values(made, r), "");
    assert Payload(made, r) + "" == Payload(made, r);
    assert Values(made, r)[..3] == [made.fingerprint, made.sort, made.direction];
    assert q == made <==> [made.fingerprint, made.sort, made.direction] == [q.fingerprint, q.sort, q.direction] by {
      QueryTexts(q, made);
    }
  }

  lemma QueryTexts(q: Query, made: Query)
    ensures q == made <==> [made.fingerprint, made.sort, made.direction] == [q.fingerprint, q.sort, q.direction]
  {
    var x, y := [made.fingerprint, made.sort, made.direction], [q.fingerprint, q.sort, q.direction];
    if x == y {
      assert x[0] == y[0] && x[1] == y[1] && x[2] == y[2];
    }
  }

  // ---------------------------------------------------------------- how long a cursor gets

  /** The bytes a text takes inside the payload. */
  function Width(s: string): nat { Bytes(Escape(s)) }

  lemma {:induction false} BytesOfBoth(a: string, b: string)
    ensures Bytes(a + b) == Bytes(a) + Bytes(b)
  {
    if a == "" {
      assert a + b == b;
    } else {
      BytesOfBoth(a[1..], b);
      assert (a + b)[1..] == a[1..] + b;
    }
  }

  predicate Ascii(s: string) { forall i :: 0 <= i < |s| ==> s[i] as int < 0x80 }

  lemma {:induction false} AsciiBytes(s: string)
    requires Ascii(s)
    ensures Bytes(s) == |s|
  {
    if s != "" {
      AsciiBytes(s[1..]);
    }
  }

  /** Six bytes for a character written as digits, two for one with a short form, else its UTF-8. */
  lemma CharWidth(c: char)
    ensures Bytes(EscapeChar(c)) == if Short(c).Some? then 2 else if Long(c) then 6 else Utf8(c)
  {
    if Short(c).Some? || Long(c) {
      forall i | 0 <= i < |EscapeChar(c)| ensures EscapeChar(c)[i] as int < 0x80 {
        EscapedAscii(c, i);
      }
      AsciiBytes(EscapeChar(c));
    } else {
      assert [c][1..] == "";
    }
  }

  /** What each character costs in a cursor: two bytes for quotation mark, reverse solidus and the
      five controls with a short form, six for every other control, for the three characters with a
      meaning in HTML and for the two line separators, and its UTF-8 for all others. */
  lemma CharCost(c: char)
    ensures Bytes(EscapeChar(c))
            == if c in {'\"', '\\', '\U{0008}', '\U{0009}', '\U{000A}', '\U{000C}', '\U{000D}'} then 2
               else if c as int < 32 || c in {'<', '>', '&', '\U{2028}', '\U{2029}'} then 6 else Utf8(c)
  {
    CharWidth(c);
  }

  lemma EscapedAscii(c: char, i: nat)
    requires (Short(c).Some? || Long(c)) && i < |EscapeChar(c)|
    ensures EscapeChar(c)[i] as int < 0x80
  {
    forall n: nat | n < 16 ensures HexDigit(n) as int < 0x80 {
      HexDigitValue(n);
    }
  }

  lemma WidthStep(s: string)
    requires s != ""
    ensures Width(s) == Bytes(EscapeChar(s[0])) + Width(s[1..])
  {
    BytesOfBoth(EscapeChar(s[0]), Escape(s[1..]));
  }

  /** Nothing takes more than four bytes, nor more than six in the payload. */
  lemma {:induction false} AtMost(s: string)
    ensures |s| <= Bytes(s) <= 4 * |s|
    ensures |s| <= Width(s) <= 6 * |s|
  {
    hide EscapeChar;
    if s != "" {
      WidthStep(s);
      CharWidth(s[0]);
      AtMost(s[1..]);
    }
  }

  /** Texts that need no escaping: identifiers, digests, the program's own words. */
  predicate Plain(s: string) { forall i :: 0 <= i < |s| ==> ' ' <= s[i] < '\U{007F}' && Short(s[i]).None? && !Long(s[i]) }

  lemma {:induction false} PlainWidth(s: string)
    requires Plain(s)
    ensures Bytes(s) == |s| && Width(s) == |s|
  {
    hide Long, Short;
    if s != "" {
      PlainWidth(s[1..]);
      WidthStep(s);
      CharWidth(s[0]);
    }
  }

  lemma {:induction false} MembersSize(labels: seq<string>, values: seq<string>)
    requires |labels| == |values| && forall x <- labels :: Ascii(x)
    ensures Bytes(WriteMembers(labels, values)) == 1 + LabelsSize(labels) + WidthsSize(values)
  {
    hide Escape, Ascii;
    if labels == [] {
      assert "}"[1..] == "";
    } else {
      var rest := WriteMembers(labels[1..], values[1..]);
      MembersSize(labels[1..], values[1..]);
      BytesOfBoth(labels[0], Escape(values[0]) + "\"" + rest);
      BytesOfBoth(Escape(values[0]) + "\"", rest);
      BytesOfBoth(Escape(values[0]), "\"");
      AsciiBytes(labels[0]);
      assert "\""[1..] == "";
    }
  }

  function LabelsSize(labels: seq<string>): nat { if labels == [] then 0 else |labels[0]| + 1 + LabelsSize(labels[1..]) }

  function WidthsSize(values: seq<string>): nat { if values == [] then 0 else Width(values[0]) + WidthsSize(values[1..]) }

  /** The cursor stays within its limit exactly if the escaped texts take at most 1494 bytes. */
  lemma CursorFits(q: Query, r: Key)
    ensures Base64Length(Bytes(Payload(q, r))) <= MAX_CURSOR
            <==> Width(q.fingerprint) + Width(q.sort) + Width(q.direction) + Width(r.key) + Width(r.id) <= 1494
  {
    hide Width;
    forall x <- LABELS ensures Ascii(x) {
    }
    MembersSize(LABELS, Values(q, r));
    FiveLabels();
    FiveWidths(Values(q, r));
    LengthLimit(Bytes(Payload(q, r)));
  }

  /** A cursor can be used to go on if and only if key and identifier are not empty, have at most 1000
      and 200 bytes, and the escaped texts leave room. */
  lemma DecodesIff(q: Query, r: Key)
    ensures Decodes(q, r) <==>
              r.key != "" && r.id != "" && Bytes(r.key) <= 1000 && Bytes(r.id) <= 200
              && Width(q.fingerprint) + Width(q.sort) + Width(q.direction) + Width(r.key) + Width(r.id) <= 1494
  {
    hide Width, Payload, Base64Length;
    CursorFits(q, r);
    AtMost(r.key);
    AtMost(r.id);
  }

  lemma FiveLabels()
    ensures LabelsSize(LABELS) == 41
  {
    assert LABELS[1..] == [",\"s\":\"", ",\"d\":\"", ",\"k\":\"", ",\"i\":\""];
    assert LABELS[1..][1..] == [",\"d\":\"", ",\"k\":\"", ",\"i\":\""];
    assert LABELS[1..][1..][1..] == [",\"k\":\"", ",\"i\":\""];
    assert LABELS[1..][1..][1..][1..] == [",\"i\":\""];
    assert LABELS[1..][1..][1..][1..][1..] == [];
  }

  lemma FiveWidths(values: seq<string>)
    requires |values| == 5
    ensures WidthsSize(values) == Width(values[0]) + Width(values[1]) + Width(values[2]) + Width(values[3]) + Width(values[4])
  {
    hide Width;
    assert WidthsSize(values[1..]) == Width(values[1]) + WidthsSize(values[1..][1..]);
    assert WidthsSize(values[1..][1..]) == Width(values[2]) + WidthsSize(values[1..][1..][1..]);
    assert WidthsSize(values[1..][1..][1..]) == Width(values[3]) + WidthsSize(values[1..][1..][1..][1..]);
    assert WidthsSize(values[1..][1..][1..][1..]) == Width(values[4]) + WidthsSize(values[1..][1..][1..][1..][1..]);
  }

  lemma LengthLimit(n: nat)
    ensures Base64Length(n) <= 2048 <==> n <= 1536
  {
  }
}
