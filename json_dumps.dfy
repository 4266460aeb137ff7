/** `json.dumps` with its default arguments, as `safe_convert_to_string` calls
    it: `", "` and `": "` separators, entries in insertion order, and strings
    escaped to printable ASCII (`ensure_ascii`) as section 7 of RFC 8259
    allows. The string decoder of section 7 is defined beside it as the
    inverse of the escaping. */
module JsonDumps {
  import opened Wrappers
  import opened Text
  import opened PyValues

  /** A character the encoder copies unchanged: printable ASCII other than
      the quotation mark and the reverse solidus. */
  predicate Plain(c: char)
  {
    ' ' <= c <= '~' && c != '"' && c != '\\'
  }

  /** A printable ASCII character. */
  predicate Printable(c: char)
  {
    ' ' <= c <= '~'
  }

  /** The lower-case hexadecimal digit of `d`. */
  function HexDigit(d: nat): (c: char)
    requires d < 16
    ensures Printable(c)
  {
    if d < 10 then ('0' as int + d) as char else ('a' as int + d - 10) as char
  }

  /** The value of a hexadecimal digit of either case. */
  function HexValue(c: char): Option<nat>
  {
    if '0' <= c <= '9' then Some(c as int - '0' as int)
    else if 'a' <= c <= 'f' then Some(c as int - 'a' as int + 10)
    else if 'A' <= c <= 'F' then Some(c as int - 'A' as int + 10)
    else None
  }

  /** `'{0:04x}'.format(n)`. */
  function Hex4(n: nat): (h: string)
    requires n < 0x10000
    ensures |h| == 4
    ensures forall i :: 0 <= i < 4 ==> Printable(h[i])
  {
    [HexDigit(n / 0x1000), HexDigit(n / 0x100 % 0x10), HexDigit(n / 0x10 % 0x10), HexDigit(n % 0x10)]
  }

  /** The number four hexadecimal digits spell. */
  function Hex4Value(h: string): Option<nat>
    requires |h| == 4
  {
    match (HexValue(h[0]), HexValue(h[1]), HexValue(h[2]), HexValue(h[3]))
    case (Some(a), Some(b), Some(c), Some(d)) => Some(a * 0x1000 + b * 0x100 + c * 0x10 + d)
    case _ => None
  }

  /** `\uXXXX` for one UTF-16 code unit. */
  function UnitEscape(n: nat): (r: string)
    requires n < 0x10000
    ensures |r| == 6 && r[0] == '\\' && r[1] == 'u' && r[2..] == Hex4(n)
  {
    ['\\', 'u'] + Hex4(n)
  }

  /** One character as `py_encode_basestring_ascii` writes it: the two-letter
      escapes, printable ASCII as itself, any other character of the Basic
      Multilingual Plane as one `\uXXXX`, and a character above it as the
      `\uXXXX\uXXXX` of its surrogate pair. */
  function EscapeChar(c: char): (r: string)
    ensures 1 <= |r|
    ensures forall i :: 0 <= i < |r| ==> Printable(r[i])
    ensures |r| == 1 <==> Plain(c)
  {
    var n := c as int;
    if c == '"' then ['\\', '"']
    else if c == '\\' then ['\\', '\\']
    else if n == 8 then ['\\', 'b']
    else if n == 12 then ['\\', 'f']
    else if c == '\n' then ['\\', 'n']
    else if c == '\r' then ['\\', 'r']
    else if c == '\t' then ['\\', 't']
    else if Plain(c) then [c]
    else if n < 0x10000 then UnitEscape(n)
    else
      var m := n - 0x10000;
      UnitEscape(0xD800 + m / 0x400) + UnitEscape(0xDC00 + m % 0x400)
  }

  /** The body of the JSON string for `s`. */
  function Escape(s: string): (r: string)
    ensures forall i :: 0 <= i < |r| ==> Printable(r[i])
    ensures |r| >= |s|
  {
    if s == [] then [] else EscapeChar(s[0]) + Escape(s[1..])
  }

  /** The JSON string for `s`, quotes included. */
  function Quote(s: string): string
  {
    "\"" + Escape(s) + "\""
  }

  /** The code unit of a `\uXXXX` at the start of `t`. */
  function UnitAt(t: string): Option<nat>
  {
    if |t| >= 6 && t[0] == '\\' && t[1] == 'u' then Hex4Value(t[2..6]) else None
  }

  /** The first character of a JSON string body, and how many characters of
      the body it takes. Unescaped quotation marks, reverse solidi and
      control characters are refused, and so is a surrogate that is not
      half of a pair, which names no character. */
  function DecodeOne(t: string): (r: Option<(char, nat)>)
    requires t != []
    ensures r.Some? ==> 1 <= r.value.1 <= |t|
  {
    if t[0] == '\\' then
      if |t| < 2 then None
      else
        match t[1]
        case '"' => Some(('"', 2))
        case '\\' => Some(('\\', 2))
        case '/' => Some(('/', 2))
        case 'b' => Some((8 as char, 2))
        case 'f' => Some((12 as char, 2))
        case 'n' => Some(('\n', 2))
        case 'r' => Some(('\r', 2))
        case 't' => Some(('\t', 2))
        case 'u' =>
          (match UnitAt(t)
           case None => None
           case Some(u) =>
             if 0xD800 <= u < 0xDC00 then
               (match UnitAt(t[6..])
                case Some(l) =>
                  if 0xDC00 <= l < 0xE000 then Some(((0x10000 + (u - 0xD800) * 0x400 + (l - 0xDC00)) as char, 12))
                  else None
                case None => None)
             else if 0xDC00 <= u < 0xE000 then None
             else Some((u as char, 6)))
        case _ => None
    else if t[0] == '"' || (t[0] as int) < 0x20 then None
    else Some((t[0], 1))
  }

  /** The characters a JSON string body stands for, or `None` when it is
      not a well-formed body. */
  function Unescape(t: string): Option<string>
    decreases |t|
  {
    if t == [] then Some([])
    else
      match DecodeOne(t)
      case None => None
      case Some((c, k)) =>
        match Unescape(t[k..])
        case None => None
        case Some(rest) => Some([c] + rest)
  }

  lemma HexDigitValue(d: nat)
    requires d < 16
    ensures HexValue(HexDigit(d)) == Some(d)
  {
  }

  /** Four digits spell back the number they were written for. */
  lemma Hex4RoundTrip(n: nat)
    requires n < 0x10000
    ensures Hex4Value(Hex4(n)) == Some(n)
  {
    var h := Hex4(n);
    HexDigitValue(n / 0x1000);
    HexDigitValue(n / 0x100 % 0x10);
    HexDigitValue(n / 0x10 % 0x10);
    HexDigitValue(n % 0x10);
    assert n / 0x100 == (n / 0x1000) * 0x10 + n / 0x100 % 0x10;
    assert n / 0x10 == (n / 0x100) * 0x10 + n / 0x10 % 0x10;
    assert n == (n / 0x10) * 0x10 + n % 0x10;
  }

  /** A `\uXXXX` escape at the head of any text reads back as its unit. */
  lemma UnitRoundTrip(n: nat, rest: string)
    requires n < 0x10000
    ensures UnitAt(UnitEscape(n) + rest) == Some(n)
  {
    var t := UnitEscape(n) + rest;
    assert t[2..6] == Hex4(n);
    Hex4RoundTrip(n);
  }

  /** The split of a character above the Basic Multilingual Plane into its
      surrogate pair, and back. */
  lemma SurrogatePair(n: int)
    requires 0x10000 <= n <= 0x10FFFF
    ensures var m := n - 0x10000;
      0xD800 <= 0xD800 + m / 0x400 < 0xDC00 && 0xDC00 <= 0xDC00 + m % 0x400 < 0xE000 &&
      0x10000 + (m / 0x400) * 0x400 + m % 0x400 == n
  {
  }

  /** Decoding undoes the escape of one character, whatever follows it. */
  lemma DecodeEscaped(c: char, rest: string)
    ensures DecodeOne(EscapeChar(c) + rest) == Some((c, |EscapeChar(c)|))
  {
    var n := c as int;
    if c == '"' || c == '\\' || n == 8 || n == 12 || c == '\n' || c == '\r' || c == '\t' || Plain(c) {
      DecodeShort(c, rest);
    } else if n < 0x10000 {
      UnitRoundTrip(n, rest);
    } else {
      DecodePair(c, rest);
    }
  }

  lemma DecodeShort(c: char, rest: string)
    requires c == '"' || c == '\\' || c as int == 8 || c as int == 12 || c == '\n' || c == '\r' || c == '\t' || Plain(c)
    ensures DecodeOne(EscapeChar(c) + rest) == Some((c, |EscapeChar(c)|))
  {
  }

  lemma DecodePair(c: char, rest: string)
    requires c as int >= 0x10000
    ensures DecodeOne(EscapeChar(c) + rest) == Some((c, |EscapeChar(c)|))
  {
    var m := c as int - 0x10000;
    var hi, lo := 0xD800 + m / 0x400, 0xDC00 + m % 0x400;
    EscapeAbove(c);
    assert EscapeChar(c) + rest == UnitEscape(hi) + (UnitEscape(lo) + rest);
    DecodeUnits(hi, lo, rest);
  }

  /** A character above the Basic Multilingual Plane is escaped as its
      surrogate pair, which spells it back. */
  lemma EscapeAbove(c: char)
    requires c as int >= 0x10000
    ensures var m := c as int - 0x10000;
      var hi, lo := 0xD800 + m / 0x400, 0xDC00 + m % 0x400;
      0xD800 <= hi < 0xDC00 && 0xDC00 <= lo < 0xE000 &&
      EscapeChar(c) == UnitEscape(hi) + UnitEscape(lo) &&
      (0x10000 + (hi - 0xD800) * 0x400 + (lo - 0xDC00)) as char == c
  {
    SurrogatePair(c as int);
  }

  /** Two escaped halves of a surrogate pair read as the character they
      encode. */
  lemma DecodeUnits(hi: nat, lo: nat, rest: string)
    requires 0xD800 <= hi < 0xDC00 && 0xDC00 <= lo < 0xE000
    ensures DecodeOne(UnitEscape(hi) + (UnitEscape(lo) + rest)) ==
      Some(((0x10000 + (hi - 0xD800) * 0x400 + (lo - 0xDC00)) as char, 12))
  {
    var t := UnitEscape(hi) + (UnitEscape(lo) + rest);
    UnitRoundTrip(hi, UnitEscape(lo) + rest);
    assert t[6..] == UnitEscape(lo) + rest;
    UnitRoundTrip(lo, rest);
  }

  /** The decoder of section 7 of RFC 8259 reads every escaped string back:
      `ensure_ascii` loses nothing. */
  lemma {:induction false} EscapeRoundTrip(s: string)
    ensures Unescape(Escape(s)) == Some(s)
  {
    if s != [] {
      var e := EscapeChar(s[0]);
      DecodeEscaped(s[0], Escape(s[1..]));
      assert (e + Escape(s[1..]))[|e|..] == Escape(s[1..]);
      EscapeRoundTrip(s[1..]);
      assert [s[0]] + s[1..] == s;
    }
  }
  /** A dictionary key as `json.dumps` writes it: a string as it is, and
      `True`, `False`, `None` and an integer by their JSON spelling; any
      other key raises TypeError. */
  function KeyText(k: Value): Option<string>
  {
    match k
    case Str(s) => Some(s)
    case Bool(b) => Some(if b then "true" else "false")
    case PyNone => Some("null")
    case Int(i) => Some(IntToString(i))
    case _ => None
  }

  /** `json.dumps(v)`; `None` stands for the TypeError of a value JSON has no
      form for (a set or any other object, or a key that is none of the
      above). A tuple is written as a list. */
  function Dumps(v: Value): Option<string>
    decreases v
  {
    match v
    case PyNone => Some("null")
    case Bool(b) => Some(if b then "true" else "false")
    case Int(i) => Some(IntToString(i))
    case Str(s) => Some(Quote(s))
    case List(items) => Bracket("[", DumpsItems(items), "]")
    case Tuple(items) => Bracket("[", DumpsItems(items), "]")
    case Dict(es) => Bracket("{", DumpsEntries(es), "}")
    case Set(_) => None
    case Object(_, _) => None
  }

  /** The members of an array or object between their brackets. */
  function Bracket(open: string, parts: Option<seq<string>>, close: string): Option<string>
  {
    match parts
    case None => None
    case Some(ps) => Some(open + Join(", ", ps) + close)
  }

  /** The encodings of the items, or `None` as soon as one fails. */
  function DumpsItems(items: seq<Value>): (r: Option<seq<string>>)
    decreases items
    ensures r.Some? ==> |r.value| == |items|
  {
    if items == [] then Some([])
    else
      match (DumpsItems(items[..|items| - 1]), Dumps(items[|items| - 1]))
      case (Some(ps), Some(p)) => Some(ps + [p])
      case _ => None
  }

  /** The `"key": value` members of an object, or `None` as soon as a key
      or a value fails. */
  function DumpsEntries(es: seq<(Value, Value)>): (r: Option<seq<string>>)
    decreases es
    ensures r.Some? ==> |r.value| == |es|
  {
    if es == [] then Some([])
    else
      match (DumpsEntries(es[..|es| - 1]), DumpsMember(es[|es| - 1]))
      case (Some(ps), Some(p)) => Some(ps + [p])
      case _ => None
  }

  /** One `"key": value` member. */
  function DumpsMember(e: (Value, Value)): Option<string>
    decreases e
  {
    match (KeyText(e.0), Dumps(e.1))
    case (Some(k), Some(p)) => Some(Quote(k) + ": " + p)
    case _ => None
  }
  /** A value `json.dumps` has a form for: no set and no other object
      anywhere, and every dictionary key one that `KeyText` spells. */
  predicate Serialisable(v: Value)
    decreases v
  {
    match v
    case Set(_) => false
    case Object(_, _) => false
    case List(items) => forall i :: 0 <= i < |items| ==> Serialisable(items[i])
    case Tuple(items) => forall i :: 0 <= i < |items| ==> Serialisable(items[i])
    case Dict(es) => forall i :: 0 <= i < |es| ==> KeyText(es[i].0).Some? && Serialisable(es[i].1)
    case _ => true
  }

  /** `json.dumps` raises exactly on the values JSON has no form for. */
  lemma {:induction false} DumpsDefined(v: Value)
    decreases v
    ensures Dumps(v).Some? <==> Serialisable(v)
  {
    match v
    case List(items) => ItemsDefined(items);
    case Tuple(items) => ItemsDefined(items);
    case Dict(es) => EntriesDefined(es);
    case _ =>
  }

  lemma {:induction false} ItemsDefined(items: seq<Value>)
    decreases items
    ensures DumpsItems(items).Some? <==> forall i :: 0 <= i < |items| ==> Serialisable(items[i])
  {
    if items != [] {
      var init := items[..|items| - 1];
      ItemsDefined(init);
      DumpsDefined(items[|items| - 1]);
      assert forall i :: 0 <= i < |init| ==> init[i] == items[i];
    }
  }

  lemma {:induction false} EntriesDefined(es: seq<(Value, Value)>)
    decreases es
    ensures DumpsEntries(es).Some? <==> forall i :: 0 <= i < |es| ==> KeyText(es[i].0).Some? && Serialisable(es[i].1)
  {
    if es != [] {
      var init := es[..|es| - 1];
      EntriesDefined(init);
      MemberDefined(es[|es| - 1]);
      assert forall i :: 0 <= i < |init| ==> init[i] == es[i];
    }
  }

  lemma {:induction false} MemberDefined(e: (Value, Value))
    decreases e
    ensures DumpsMember(e).Some? <==> KeyText(e.0).Some? && Serialisable(e.1)
  {
    DumpsDefined(e.1);
  }

  /** What `json.dumps` writes is printable ASCII: `ensure_ascii` escapes
      every other character. */
  lemma {:induction false} DumpsAscii(v: Value)
    decreases v
    ensures Dumps(v).Some? ==> forall i :: 0 <= i < |Dumps(v).value| ==> Printable(Dumps(v).value[i])
  {
    match v
    case Int(i) => IntAscii(i);
    case Str(s) =>
    case List(items) => ItemsAscii(items); BracketAscii("[", DumpsItems(items), "]");
    case Tuple(items) => ItemsAscii(items); BracketAscii("[", DumpsItems(items), "]");
    case Dict(es) => EntriesAscii(es); BracketAscii("{", DumpsEntries(es), "}");
    case _ =>
  }

  predicate AllPrintable(s: string)
  {
    forall i :: 0 <= i < |s| ==> Printable(s[i])
  }

  lemma IntAscii(i: int)
    ensures AllPrintable(IntToString(i))
  {
  }

  lemma {:induction false} JoinAscii(parts: seq<string>)
    requires forall j :: 0 <= j < |parts| ==> AllPrintable(parts[j])
    ensures AllPrintable(Join(", ", parts))
  {
    if |parts| > 1 {
      JoinAscii(parts[..|parts| - 1]);
    }
  }

  lemma BracketAscii(open: string, parts: Option<seq<string>>, close: string)
    requires AllPrintable(open) && AllPrintable(close)
    requires parts.Some? ==> forall j :: 0 <= j < |parts.value| ==> AllPrintable(parts.value[j])
    ensures Bracket(open, parts, close).Some? ==> AllPrintable(Bracket(open, parts, close).value)
  {
    if parts.Some? {
      JoinAscii(parts.value);
    }
  }

  lemma {:induction false} ItemsAscii(items: seq<Value>)
    decreases items
    ensures DumpsItems(items).Some? ==> forall j :: 0 <= j < |items| ==> AllPrintable(DumpsItems(items).value[j])
  {
    if items != [] {
      ItemsAscii(items[..|items| - 1]);
      DumpsAscii(items[|items| - 1]);
    }
  }

  lemma {:induction false} EntriesAscii(es: seq<(Value, Value)>)
    decreases es
    ensures DumpsEntries(es).Some? ==> forall j :: 0 <= j < |es| ==> AllPrintable(DumpsEntries(es).value[j])
  {
    if es != [] {
      EntriesAscii(es[..|es| - 1]);
      MemberAscii(es[|es| - 1]);
    }
  }

  lemma {:induction false} MemberAscii(e: (Value, Value))
    decreases e
    ensures DumpsMember(e).Some? ==> AllPrintable(DumpsMember(e).value)
  {
    DumpsAscii(e.1);
    if e.0.Int? {
      IntAscii(e.0.i);
    }
  }
}
