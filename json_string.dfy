/** JSON string tokens as System.Text.Json writes and reads them: Utf8JsonWriter.WriteStringValue
    quotes and escapes a string, Utf8JsonReader.GetString reads a string token back (and gives
    null for a null token). */
module JsonString {
  import opened Wrappers

  function HexDigit(d: nat): char
    requires d < 16
  {
    "0123456789ABCDEF"[d]
  }

  /** The value of a hexadecimal digit, either case. */
  function HexValue(c: char): (v: Option<nat>)
    ensures v.Some? ==> v.value < 16
  {
    if '0' <= c <= '9' then Some(c as int - '0' as int)
    else if 'a' <= c <= 'f' then Some(c as int - 'a' as int + 10)
    else if 'A' <= c <= 'F' then Some(c as int - 'A' as int + 10)
    else None
  }

  lemma HexRoundTrip(d: nat)
    requires d < 16
    ensures HexValue(HexDigit(d)) == Some(d)
  {
    var digits := "0123456789ABCDEF";
    assert digits[d] as int == if d < 10 then '0' as int + d else 'A' as int + d - 10;
  }

  /** How the writer encodes one character: the quote as ", the backslash and the common
      control characters with a short escape, other control characters as \u00XX, and every other
      character as itself. */
  function EscapeChar(c: char): string
  {
    if c == '"' then "\\u0022"
    else if c == '\\' then "\\\\"
    else if c == '\n' then "\\n"
    else if c == '\r' then "\\r"
    else if c == '\t' then "\\t"
    else if c == '\U{0008}' then "\\b"
    else if c == '\U{000C}' then "\\f"
    else if (c as int) < 0x20 then "\\u00" + [HexDigit(c as int / 16), HexDigit(c as int % 16)]
    else [c]
  }

  function EscapeBody(s: string): string
  {
    if s == [] then [] else EscapeChar(s[0]) + EscapeBody(s[1..])
  }

  /** WriteStringValue(s): the quoted, escaped token. */
  function WriteString(s: string): (token: string)
    ensures |token| >= 2 && token[0] == '"' && token[|token| - 1] == '"'
  {
    "\"" + EscapeBody(s) + "\""
  }

  /** The character a one-letter escape stands for. */
  function ShortEscape(c: char): Option<char>
  {
    if c == '"' then Some('"')
    else if c == '\\' then Some('\\')
    else if c == '/' then Some('/')
    else if c == 'b' then Some('\U{0008}')
    else if c == 'f' then Some('\U{000C}')
    else if c == 'n' then Some('\n')
    else if c == 'r' then Some('\r')
    else if c == 't' then Some('\t')
    else None
  }

  /** The value of four hexadecimal digits. */
  function Hex4(t: string): Option<nat>
    requires |t| == 4
  {
    match (HexValue(t[0]), HexValue(t[1]), HexValue(t[2]), HexValue(t[3]))
    case (Some(a), Some(b), Some(c), Some(d)) => Some(((a * 16 + b) * 16 + c) * 16 + d)
    case _ => None
  }

  /** Reads the rest of a string token after its opening quote: characters and escapes up to the
      closing quote, which must end the token. Raw control characters, unknown escapes and
      lone surrogate code units are malformed. */
  function ReadBody(t: string): Option<string>
    decreases |t|
  {
    if t == [] then None
    else if t[0] == '"' then (if |t| == 1 then Some([]) else None)
    else if t[0] == '\\' then
      if |t| < 2 then None
      else if t[1] == 'u' then
        if |t| < 6 then None
        else match Hex4(t[2..6])
          case None => None
          case Some(v) =>
            if 0xD800 <= v < 0xE000 then None
            else match ReadBody(t[6..])
              case None => None
              case Some(rest) => Some([v as char] + rest)
      else match ShortEscape(t[1])
        case None => None
        case Some(c) =>
          match ReadBody(t[2..])
          case None => None
          case Some(rest) => Some([c] + rest)
    else if (t[0] as int) < 0x20 then None
    else match ReadBody(t[1..])
      case None => None
      case Some(rest) => Some([t[0]] + rest)
  }

  /** GetString on the token text: null for a null token, the decoded string for a string token.
      Another token kind throws InvalidOperationException, a malformed string JsonException. */
  function GetString(token: string): Result<Option<string>>
  {
    if token == "null" then Success(None)
    else if token != [] && token[0] == '"' then
      match ReadBody(token[1..])
      case None => Failure(JsonException)
      case Some(s) => Success(Some(s))
    else Failure(InvalidOperationException)
  }

  /** What reading back c's escape followed by rest gives: c in front of what rest reads as. */
  function Prepend(c: char, rest: Option<string>): Option<string>
  {
    match rest
    case None => None
    case Some(r) => Some([c] + r)
  }

  /** Reading back one escaped character and what follows it. */
  lemma ReadEscapedChar(c: char, rest: string)
    ensures ReadBody(EscapeChar(c) + rest) == Prepend(c, ReadBody(rest))
  {
    if c == '"' {
      ReadQuoteEscape(rest);
    } else if c == '\\' || c == '\n' || c == '\r' || c == '\t' || c == '\U{0008}' || c == '\U{000C}' {
      ReadShortEscape(c, rest);
    } else if (c as int) < 0x20 {
      ReadControlEscape(c, rest);
    } else {
      var t := EscapeChar(c) + rest;
      assert t[0] == c && t[1..] == rest;
    }
  }

  lemma ReadQuoteEscape(rest: string)
    ensures ReadBody(EscapeChar('"') + rest) == Prepend('"', ReadBody(rest))
  {
    var t := EscapeChar('"') + rest;
    assert t[..6] == "\\u0022" && t[6..] == rest;
    assert t[2..6] == "0022";
    assert Hex4("0022") == Some(0x22);
  }

  lemma ReadShortEscape(c: char, rest: string)
    requires c == '\\' || c == '\n' || c == '\r' || c == '\t' || c == '\U{0008}' || c == '\U{000C}'
    ensures ReadBody(EscapeChar(c) + rest) == Prepend(c, ReadBody(rest))
  {
    var t := EscapeChar(c) + rest;
    assert |EscapeChar(c)| == 2 && t[0] == '\\' && ShortEscape(t[1]) == Some(c);
    assert t[2..] == rest;
  }

  lemma ReadControlEscape(c: char, rest: string)
    requires (c as int) < 0x20 && !(c == '\n' || c == '\r' || c == '\t' || c == '\U{0008}' || c == '\U{000C}')
    ensures ReadBody(EscapeChar(c) + rest) == Prepend(c, ReadBody(rest))
  {
    var n := c as int;
    var t := EscapeChar(c) + rest;
    HexRoundTrip(n / 16);
    HexRoundTrip(n % 16);
    assert EscapeChar(c) == "\\u00" + [HexDigit(n / 16), HexDigit(n % 16)];
    assert t[0] == '\\' && t[1] == 'u';
    assert t[2..6] == ['0', '0', HexDigit(n / 16), HexDigit(n % 16)] && t[6..] == rest;
    assert Hex4(t[2..6]) == Some(n);
  }

  /** Reading back an escaped body followed by the closing quote gives the original string. */
  lemma {:induction false} ReadEscapedBody(s: string)
    ensures ReadBody(EscapeBody(s) + "\"") == Some(s)
  {
    if s == [] {
      assert EscapeBody(s) + "\"" == "\"";
    } else {
      ReadEscapedBody(s[1..]);
      assert EscapeBody(s) + "\"" == EscapeChar(s[0]) + (EscapeBody(s[1..]) + "\"");
      ReadEscapedChar(s[0], EscapeBody(s[1..]) + "\"");
      assert Prepend(s[0], Some(s[1..])) == Some([s[0]] + s[1..]);
      assert [s[0]] + s[1..] == s;
    }
  }

  /** GetString reads back what WriteStringValue wrote. */
  lemma WriteReadRoundTrip(s: string)
    ensures GetString(WriteString(s)) == Success(Some(s))
  {
    var token := WriteString(s);
    assert token[1..] == EscapeBody(s) + "\"";
    ReadEscapedBody(s);
  }
}
