/**
 * The bithenge tree printer: writes a tree of internal, boolean, integer,
 * string and blob nodes as Python-literal or JSON text.
 *
 * The printer's output stream is modelled as the string `out` of a
 * `Printer`; what `printf` would write is appended to it. The functions
 * `Render*` say, for each node, what text is printed and which code is
 * returned; the methods of `Printer` follow the source step by step and are
 * proved to print exactly that.
 */
module BithengePrint {
  import opened Wrappers
  import opened Errno

  datatype PrintType = Python | Json

  /** An error code reported by a node's iterator or string decoder. */
  type Failure = e: Errno | e != EOK witness ENOTSUP

  /** One step of `string_iterator_next`: a decoded character or an error. */
  datatype Decoded = Char(c: char) | Invalid(code: Failure)

  /** One step of `bithenge_node_for_each`: a key/value pair, or the error
      that ends the iteration. */
  datatype Item = Entry(key: Node, value: Node) | Broken(code: Failure)

  /** A tree node; `Unknown` is a node of none of the five printable types. */
  datatype Node =
    | Internal(items: seq<Item>)
    | Boolean(b: bool)
    | Integer(v: int)
    | Str(chars: seq<Decoded>)
    | Blob(bytes: seq<bv8>)
    | Unknown

  /** What printing a node writes and returns. */
  datatype Printed = Printed(text: string, rc: Errno)

  // Text of the leaves

  /** Four spaces per level. */
  function Indent(k: nat): (s: string)
    ensures |s| == 4 * k
    ensures forall i :: 0 <= i < |s| ==> s[i] == ' '
  {
    if k == 0 then "" else Indent(k - 1) + "    "
  }

  /** `newline`: a line break, then four spaces per level of `depth`. */
  function NewlineText(depth: int): (s: string)
    ensures |s| >= 1 && s[0] == '\n'
    ensures |s| == 1 + (if depth > 0 then 4 * depth else 0)
    ensures forall i :: 1 <= i < |s| ==> s[i] == ' '
  {
    "\n" + Indent(if depth > 0 then depth else 0)
  }

  /** `print_boolean` */
  function BoolText(kind: PrintType, b: bool): string
  {
    match kind
    case Python => if b then "True" else "False"
    case Json => if b then "true" else "false"
  }

  function DigitChar(d: nat): (c: char)
    requires d < 10
    ensures '0' <= c <= '9' && c as int - '0' as int == d
  {
    ('0' as int + d) as char
  }

  /** The decimal digits of `n`, most significant first. */
  function NatDigits(n: nat): (s: string)
    ensures |s| >= 1
    ensures forall i :: 0 <= i < |s| ==> '0' <= s[i] <= '9'
    ensures |s| > 1 ==> s[0] != '0'
  {
    if n < 10 then [DigitChar(n)] else NatDigits(n / 10) + [DigitChar(n % 10)]
  }

  /** `print_integer`: the value in decimal, with a leading minus sign when
      negative. */
  function Decimal(v: int): (s: string)
    ensures |s| >= 1
    ensures s[0] == '-' <==> v < 0
  {
    if v < 0 then "-" + NatDigits(-v) else NatDigits(v)
  }

  /** The value of a string of decimal digits. */
  function ParseNat(s: string): nat
  {
    if s == [] || !('0' <= s[|s| - 1] <= '9') then 0
    else 10 * ParseNat(s[..|s| - 1]) + (s[|s| - 1] as int - '0' as int)
  }

  /** Reads a decimal integer back. */
  function ParseDecimal(s: string): int
  {
    if |s| > 0 && s[0] == '-' then -(ParseNat(s[1..]) as int) else ParseNat(s)
  }

  lemma {:induction false} ParseNatDigits(n: nat)
    ensures ParseNat(NatDigits(n)) == n
    decreases n
  {
    if n >= 10 {
      var s := NatDigits(n);
      assert s[..|s| - 1] == NatDigits(n / 10);
      ParseNatDigits(n / 10);
    }
  }

  /** Integers print in a form that reads back as the same value. */
  lemma DecimalRoundTrip(v: int)
    ensures ParseDecimal(Decimal(v)) == v
  {
    if v < 0 {
      ParseNatDigits(-v);
      assert Decimal(v)[1..] == NatDigits(-v);
    } else {
      ParseNatDigits(v);
    }
  }

  /** A lowercase hexadecimal digit. */
  function HexDigit(d: nat): (c: char)
    requires d < 16
    ensures ('0' <= c <= '9') || ('a' <= c <= 'f')
  {
    if d < 10 then ('0' as int + d) as char else ('a' as int + d - 10) as char
  }

  function HexValue(c: char): Option<nat>
  {
    if '0' <= c <= '9' then Some(c as int - '0' as int)
    else if 'a' <= c <= 'f' then Some(c as int - 'a' as int + 10)
    else None
  }

  /** `%02x` of a number below 256. */
  function Hex2(v: nat): (s: string)
    requires v < 256
    ensures |s| == 2
    ensures HexValue(s[0]).Some? && HexValue(s[1]).Some?
    ensures 16 * HexValue(s[0]).value + HexValue(s[1]).value == v
  {
    [HexDigit(v / 16), HexDigit(v % 16)]
  }

  // Strings

  /**
   * How `print_string` writes one character: a quote or a backslash after a
   * backslash, a control character (up to U+001F) as `\u00xx` with
   * lowercase hex, anything else as itself (section 7 of RFC 8259).
   */
  function EscapeChar(c: char): (s: string)
    ensures |s| >= 1
    ensures (c == '"' || c == '\\') <==> |s| == 2
    ensures c as int <= 0x1f && c != '"' && c != '\\' <==> |s| == 6
    ensures |s| > 1 <==> s[0] == '\\'
    ensures |s| == 1 ==> s == [c]
  {
    if c == '"' || c == '\\' then ['\\', c]
    else if c as int <= 0x1f then "\\u00" + Hex2(c as int)
    else [c]
  }

  function EscapeString(s: string): (t: string)
  {
    if s == [] then [] else EscapeChar(s[0]) + EscapeString(s[1..])
  }

  /** Reads a JSON string body back: the inverse of `EscapeString`. A bare
      quote or control character, or an unknown escape, is rejected. */
  function Unescape(t: string): Option<string>
    decreases |t|
  {
    if t == [] then Some([])
    else if t[0] == '\\' then
      if |t| >= 2 && (t[1] == '"' || t[1] == '\\') then
        var rest := Unescape(t[2..]);
        if rest.Some? then Some([t[1]] + rest.value) else None
      else if |t| >= 6 && t[1] == 'u' && t[2] == '0' && t[3] == '0'
              && HexValue(t[4]).Some? && HexValue(t[5]).Some? then
        var code := 16 * HexValue(t[4]).value + HexValue(t[5]).value;
        var rest := Unescape(t[6..]);
        if rest.Some? && code < 256 then Some([code as char] + rest.value) else None
      else None
    else if t[0] == '"' || t[0] as int <= 0x1f then None
    else
      var rest := Unescape(t[1..]);
      if rest.Some? then Some([t[0]] + rest.value) else None
  }

  /** Every string prints as a literal that reads back as the same string. */
  lemma {:induction false} UnescapeEscape(s: string)
    ensures Unescape(EscapeString(s)) == Some(s)
    decreases |s|
  {
    if s != [] {
      var e := EscapeChar(s[0]);
      var rest := EscapeString(s[1..]);
      var t := e + rest;
      assert t == EscapeString(s);
      UnescapeEscape(s[1..]);
      assert t[|e|..] == rest;
      assert s == [s[0]] + s[1..];
      if |e| == 6 {
        assert t[..6] == "\\u00" + Hex2(s[0] as int);
      }
    }
  }

  /** The body printed for the characters from index `i` on: escaped
      characters up to the first decoding error, whose code is returned. */
  function StringBody(chars: seq<Decoded>, i: nat): (r: Printed)
    requires i <= |chars|
    decreases |chars| - i
  {
    if i == |chars| then Printed("", EOK)
    else match chars[i]
      case Invalid(code) => Printed("", code)
      case Char(c) =>
        var rest := StringBody(chars, i + 1);
        Printed(EscapeChar(c) + rest.text, rest.rc)
  }

  lemma StringBodyStep(chars: seq<Decoded>, i: nat, done: string)
    requires i < |chars| && chars[i].Char?
    requires StringBody(chars, 0).text == done + StringBody(chars, i).text
    ensures StringBody(chars, 0).text == done + EscapeChar(chars[i].c) + StringBody(chars, i + 1).text
    ensures StringBody(chars, i).rc == StringBody(chars, i + 1).rc
  {
    AppendAssoc(done, EscapeChar(chars[i].c), StringBody(chars, i + 1).text);
  }

  /** Decoding errors propagate unchanged: the body fails exactly when some
      character fails to decode, with the code of the first such failure. */
  lemma {:induction false} StringBodyFailure(chars: seq<Decoded>, i: nat)
    requires i <= |chars|
    ensures var r := StringBody(chars, i);
      && (r.rc == EOK <==> forall j :: i <= j < |chars| ==> chars[j].Char?)
      && (r.rc != EOK ==>
            exists j :: (i <= j < |chars| && chars[j] == Invalid(r.rc)
                         && forall l :: i <= l < j ==> chars[l].Char?))
    decreases |chars| - i
  {
    if i < |chars| {
      StringBodyFailure(chars, i + 1);
      if chars[i].Invalid? {
        assert chars[i] == Invalid(StringBody(chars, i).rc);
      }
    }
  }

  /** The characters of a string that decodes without error. */
  function Chars(chars: seq<Decoded>): (s: string)
    requires forall j :: 0 <= j < |chars| ==> chars[j].Char?
    ensures |s| == |chars|
    ensures forall j :: 0 <= j < |chars| ==> s[j] == chars[j].c
  {
    if chars == [] then [] else [chars[0].c] + Chars(chars[1..])
  }

  lemma {:induction false} StringBodyEscapes(chars: seq<Decoded>, i: nat)
    requires i <= |chars|
    requires forall j :: 0 <= j < |chars| ==> chars[j].Char?
    ensures StringBody(chars, i) == Printed(EscapeString(Chars(chars[i..])), EOK)
    decreases |chars| - i
  {
    if i < |chars| {
      StringBodyEscapes(chars, i + 1);
      var s := Chars(chars[i..]);
      assert s[1..] == Chars(chars[i + 1..]);
    }
  }

  /** `print_string`: the escaped characters between double quotes; the
      closing quote is missing when decoding fails. */
  function StringText(chars: seq<Decoded>): (r: Printed)
    ensures |r.text| >= 1 && r.text[0] == '"'
    ensures r.rc == StringBody(chars, 0).rc
  {
    var body := StringBody(chars, 0);
    if body.rc != EOK then Printed("\"" + body.text, body.rc)
    else Printed("\"" + body.text + "\"", EOK)
  }

  /** A string that decodes prints as a quoted literal whose body reads back
      as exactly its characters. */
  lemma StringLiteralRoundTrip(chars: seq<Decoded>)
    requires forall j :: 0 <= j < |chars| ==> chars[j].Char?
    ensures var t := StringText(chars).text;
      |t| >= 2 && t[0] == '"' && t[|t| - 1] == '"'
      && Unescape(t[1..|t| - 1]) == Some(Chars(chars))
  {
    StringBodyEscapes(chars, 0);
    assert chars[0..] == chars;
    var t := StringText(chars).text;
    assert t[1..|t| - 1] == EscapeString(Chars(chars));
    UnescapeEscape(Chars(chars));
  }

  // Blobs

  /** One byte as `\xNN`. */
  function ByteText(b: bv8): (s: string)
    ensures |s| == 4 && s[..2] == "\\x"
  {
    "\\x" + Hex2(b as nat)
  }

  function HexBytes(bytes: seq<bv8>): (s: string)
    ensures |s| == 4 * |bytes|
  {
    if bytes == [] then [] else HexBytes(bytes[..|bytes| - 1]) + ByteText(bytes[|bytes| - 1])
  }

  lemma HexBytesSnoc(bytes: seq<bv8>, k: nat)
    requires k < |bytes|
    ensures HexBytes(bytes[..k + 1]) == HexBytes(bytes[..k]) + ByteText(bytes[k])
  {
    assert bytes[..k + 1][..k] == bytes[..k];
  }

  /** Printing a blob piecewise prints the same as printing it whole. */
  lemma {:induction false} HexBytesAppend(a: seq<bv8>, b: seq<bv8>)
    ensures HexBytes(a + b) == HexBytes(a) + HexBytes(b)
    decreases |b|
  {
    if b == [] {
      assert a + b == a;
    } else {
      var init := b[..|b| - 1];
      assert (a + b)[..|a + b| - 1] == a + init;
      HexBytesAppend(a, init);
      AppendAssoc(HexBytes(a), HexBytes(init), ByteText(b[|b| - 1]));
    }
  }

  lemma HexBytesChunk(bytes: seq<bv8>, pos: nat, n: nat)
    requires pos + n <= |bytes|
    ensures HexBytes(bytes[..pos + n]) == HexBytes(bytes[..pos]) + HexBytes(bytes[pos..pos + n])
  {
    assert bytes[..pos + n] == bytes[..pos] + bytes[pos..pos + n];
    HexBytesAppend(bytes[..pos], bytes[pos..pos + n]);
  }

  /** The output after one more chunk of a blob has been printed. */
  lemma HexPrefixStep(start: string, bytes: seq<bv8>, pos: nat, n: nat)
    requires pos + n <= |bytes|
    ensures start + HexBytes(bytes[..pos]) + HexBytes(bytes[pos..pos + n])
      == start + HexBytes(bytes[..pos + n])
  {
    HexBytesChunk(bytes, pos, n);
    AppendAssoc(start, HexBytes(bytes[..pos]), HexBytes(bytes[pos..pos + n]));
  }

  /** Reads `\xNN` sequences back into bytes. */
  function UnhexBytes(t: string): Option<seq<bv8>>
    decreases |t|
  {
    if t == [] then Some([])
    else if |t| >= 4 && t[0] == '\\' && t[1] == 'x'
            && HexValue(t[2]).Some? && HexValue(t[3]).Some? then
      var v := 16 * HexValue(t[2]).value + HexValue(t[3]).value;
      var rest := UnhexBytes(t[4..]);
      if rest.Some? && v < 256 then Some([v as bv8] + rest.value) else None
    else None
  }

  lemma {:induction false} UnhexPrepend(b: bv8, t: string)
    requires UnhexBytes(t).Some?
    ensures UnhexBytes(ByteText(b) + t) == Some([b] + UnhexBytes(t).value)
  {
    var s := ByteText(b) + t;
    assert s[4..] == t;
    assert s[2] == Hex2(b as nat)[0] && s[3] == Hex2(b as nat)[1];
  }

  lemma {:induction false} HexBytesPrepend(b: bv8, bytes: seq<bv8>)
    ensures HexBytes([b] + bytes) == ByteText(b) + HexBytes(bytes)
    decreases |bytes|
  {
    if bytes != [] {
      var init := bytes[..|bytes| - 1];
      var last := bytes[|bytes| - 1];
      assert ([b] + bytes)[..|bytes|] == [b] + init;
      HexBytesPrepend(b, init);
    }
  }

  /** Every byte of a blob prints in order, and the text reads back as the
      blob. */
  lemma {:induction false} BlobBytesRoundTrip(bytes: seq<bv8>)
    ensures UnhexBytes(HexBytes(bytes)) == Some(bytes)
    decreases |bytes|
  {
    if bytes != [] {
      assert bytes == [bytes[0]] + bytes[1..];
      HexBytesPrepend(bytes[0], bytes[1..]);
      BlobBytesRoundTrip(bytes[1..]);
      UnhexPrepend(bytes[0], HexBytes(bytes[1..]));
    }
  }

  /** The opening of a blob: `b"` for Python, `"` for JSON. */
  function BlobPrefix(kind: PrintType): string
  {
    if kind == Python then "b\"" else "\""
  }

  /** The size of the chunk buffer of `print_blob`. */
  const CHUNK_SIZE: nat := 1024

  /** `bithenge_blob_read` of up to `size` bytes at offset `pos`. */
  function BlobRead(bytes: seq<bv8>, pos: nat, size: nat): (chunk: seq<bv8>)
    requires pos <= |bytes|
    ensures |chunk| <= size && pos + |chunk| <= |bytes| && chunk == bytes[pos..pos + |chunk|]
    ensures |chunk| < size ==> pos + |chunk| == |bytes|
  {
    if |bytes| - pos < size then bytes[pos..] else bytes[pos..pos + size]
  }

  // Trees

  /** Whether the key of an entry is quoted: in JSON, unless it is a string. */
  predicate AddQuotes(kind: PrintType, key: Node)
  {
    kind == Json && !key.Str?
  }

  /**
   * What printing `n` with the printer at `depth` writes and returns
   * (`print_node`). An internal node prints `{`, its entries one level
   * deeper, then, when it has any, a line break at its own depth, and `}`;
   * an unknown node prints nothing and fails with ENOTSUP.
   */
  function Render(kind: PrintType, depth: int, n: Node): (r: Printed)
    ensures n.Boolean? || n.Integer? || n.Blob? ==> r.rc == EOK
    ensures n.Unknown? <==> r == Printed("", ENOTSUP)
    decreases n, 1
  {
    match n
    case Internal(items) =>
      var body := RenderItems(kind, depth + 1, n, 0);
      if body.rc != EOK then Printed("{" + body.text, body.rc)
      else Printed("{" + body.text + (if |items| > 0 then NewlineText(depth) else "") + "}", EOK)
    case Boolean(b) => Printed(BoolText(kind, b), EOK)
    case Integer(v) => Printed(Decimal(v), EOK)
    case Str(chars) => StringText(chars)
    case Blob(bytes) => Printed(BlobPrefix(kind) + HexBytes(bytes) + "\"", EOK)
    case Unknown => Printed("", ENOTSUP)
  }

  /** The entries of internal node `n` from index `i` on, printed at `depth`,
      up to the first failure. */
  function RenderItems(kind: PrintType, depth: int, n: Node, i: nat): (r: Printed)
    requires n.Internal? && i <= |n.items|
    decreases n, 0, |n.items| - i
  {
    if i == |n.items| then Printed("", EOK)
    else match n.items[i]
      case Broken(code) => Printed("", code)
      case Entry(_, _) =>
        var e := RenderEntry(kind, depth, i == 0, n.items[i]);
        if e.rc != EOK then e
        else
          var rest := RenderItems(kind, depth, n, i + 1);
          Printed(e.text + rest.text, rest.rc)
  }

  /**
   * `print_internal_func`: a comma unless this is the first entry, a line
   * break at `depth`, the key (quoted when `AddQuotes`), `: ` and the value.
   */
  function RenderEntry(kind: PrintType, depth: int, first: bool, item: Item): (r: Printed)
    requires item.Entry?
    ensures |r.text| >= 1
    decreases item
  {
    var q := if AddQuotes(kind, item.key) then "\"" else "";
    var head := (if first then "" else ",") + NewlineText(depth) + q;
    var k := Render(kind, depth, item.key);
    if k.rc != EOK then Printed(head + k.text, k.rc)
    else
      var v := Render(kind, depth, item.value);
      Printed(head + k.text + q + ": " + v.text, v.rc)
  }

  /** A tree with no failing iteration, undecodable string or unknown node. */
  predicate WellFormed(n: Node)
    decreases n, 1
  {
    match n
    case Internal(items) => ItemsWellFormed(n, 0)
    case Str(chars) => forall j :: 0 <= j < |chars| ==> chars[j].Char?
    case Unknown => false
    case _ => true
  }

  predicate ItemsWellFormed(n: Node, i: nat)
    requires n.Internal? && i <= |n.items|
    decreases n, 0, |n.items| - i
  {
    i == |n.items| ||
      (n.items[i].Entry? && WellFormed(n.items[i].key) && WellFormed(n.items[i].value)
       && ItemsWellFormed(n, i + 1))
  }

  /** A well-formed tree prints without error, whatever the depth. */
  lemma {:induction false} WellFormedPrints(kind: PrintType, depth: int, n: Node)
    requires WellFormed(n)
    ensures Render(kind, depth, n).rc == EOK
    decreases n, 1
  {
    match n
    case Internal(items) => WellFormedItemsPrint(kind, depth + 1, n, 0);
    case Str(chars) => StringBodyFailure(chars, 0);
    case Boolean(_) =>
    case Integer(_) =>
    case Blob(_) =>
  }

  lemma {:induction false} WellFormedItemsPrint(kind: PrintType, depth: int, n: Node, i: nat)
    requires n.Internal? && i <= |n.items| && ItemsWellFormed(n, i)
    ensures RenderItems(kind, depth, n, i).rc == EOK
    decreases n, 0, |n.items| - i
  {
    if i < |n.items| {
      var item := n.items[i];
      WellFormedPrints(kind, depth, item.key);
      WellFormedPrints(kind, depth, item.value);
      WellFormedItemsPrint(kind, depth, n, i + 1);
    }
  }

  /**
   * The first failure met walking `n` in print order, EOK when there is none:
   * a failed iteration step, a character that does not decode, or ENOTSUP for
   * a node of unknown type; an entry's key is walked before its value.
   */
  function FirstFailure(n: Node): Errno
    decreases n, 1
  {
    match n
    case Internal(_) => ItemsFirstFailure(n, 0)
    case Str(chars) => CharsFirstFailure(chars, 0)
    case Unknown => ENOTSUP
    case _ => EOK
  }

  function ItemsFirstFailure(n: Node, i: nat): Errno
    requires n.Internal? && i <= |n.items|
    decreases n, 0, |n.items| - i
  {
    if i == |n.items| then EOK
    else match n.items[i]
      case Broken(code) => code
      case Entry(key, value) =>
        if FirstFailure(key) != EOK then FirstFailure(key)
        else if FirstFailure(value) != EOK then FirstFailure(value)
        else ItemsFirstFailure(n, i + 1)
  }

  function CharsFirstFailure(chars: seq<Decoded>, i: nat): Errno
    requires i <= |chars|
    decreases |chars| - i
  {
    if i == |chars| then EOK
    else match chars[i]
      case Invalid(code) => code
      case Char(_) => CharsFirstFailure(chars, i + 1)
  }

  /** A string body returns the first decoding failure, and succeeds
      exactly when every character decodes. */
  lemma {:induction false} StringBodyFirstFailure(chars: seq<Decoded>, i: nat)
    requires i <= |chars|
    ensures StringBody(chars, i).rc == CharsFirstFailure(chars, i)
    ensures CharsFirstFailure(chars, i) == EOK <==> forall j :: i <= j < |chars| ==> chars[j].Char?
    decreases |chars| - i
  {
    if i < |chars| {
      StringBodyFirstFailure(chars, i + 1);
    }
  }

  /** A tree has no failure in it exactly when it is well formed. */
  lemma {:induction false} NoFailureIffWellFormed(n: Node)
    ensures FirstFailure(n) == EOK <==> WellFormed(n)
    decreases n, 1
  {
    match n
    case Internal(_) => ItemsNoFailureIffWellFormed(n, 0);
    case Str(chars) => StringBodyFirstFailure(chars, 0);
    case Boolean(_) =>
    case Integer(_) =>
    case Blob(_) =>
    case Unknown =>
  }

  lemma {:induction false} ItemsNoFailureIffWellFormed(n: Node, i: nat)
    requires n.Internal? && i <= |n.items|
    ensures ItemsFirstFailure(n, i) == EOK <==> ItemsWellFormed(n, i)
    decreases n, 0, |n.items| - i
  {
    if i < |n.items| && n.items[i].Entry? {
      NoFailureIffWellFormed(n.items[i].key);
      NoFailureIffWellFormed(n.items[i].value);
      ItemsNoFailureIffWellFormed(n, i + 1);
    }
  }

  /** Printing returns exactly the tree's first failure in print order (EOK
      when it has none), so it fails exactly when the tree is not well
      formed. */
  lemma {:induction false} ErrorsComeFromTree(kind: PrintType, depth: int, n: Node)
    ensures Render(kind, depth, n).rc == FirstFailure(n)
    ensures Render(kind, depth, n).rc == EOK <==> WellFormed(n)
    decreases n, 1
  {
    NoFailureIffWellFormed(n);
    match n
    case Internal(_) => ItemsErrorsComeFromTree(kind, depth + 1, n, 0);
    case Str(chars) => StringBodyFirstFailure(chars, 0);
    case Boolean(_) =>
    case Integer(_) =>
    case Blob(_) =>
    case Unknown =>
  }

  lemma {:induction false} ItemsErrorsComeFromTree(kind: PrintType, depth: int, n: Node, i: nat)
    requires n.Internal? && i <= |n.items|
    ensures RenderItems(kind, depth, n, i).rc == ItemsFirstFailure(n, i)
    decreases n, 0, |n.items| - i
  {
    if i < |n.items| && n.items[i].Entry? {
      var item := n.items[i];
      ErrorsComeFromTree(kind, depth, item.key);
      ErrorsComeFromTree(kind, depth, item.value);
      ItemsErrorsComeFromTree(kind, depth, n, i + 1);
    }
  }

  /** An internal node prints between braces (the closing one missing after
      a failure), and each entry starts with a comma unless it is the first,
      then a line break. */
  lemma Braces(kind: PrintType, depth: int, n: Node, first: bool, item: Item)
    requires n.Internal? && item.Entry?
    ensures var r := Render(kind, depth, n);
      |r.text| >= 1 && r.text[0] == '{' && (r.rc == EOK ==> r.text[|r.text| - 1] == '}')
    ensures var e := RenderEntry(kind, depth, first, item).text;
      e[0] == (if first then '\n' else ',') && (!first ==> e[1] == '\n')
  {
  }

  /** An empty internal node prints as `{}` at any depth. */
  lemma EmptyInternal(kind: PrintType, depth: int)
    ensures Render(kind, depth, Internal([])) == Printed("{}", EOK)
  {
  }

  /** The text of the entries `i` to `j - 1` of `n`, each printed at `depth`. */
  function EntriesBetween(kind: PrintType, depth: int, n: Node, i: nat, j: nat): string
    requires n.Internal? && i <= j <= |n.items|
    requires forall l :: i <= l < j ==> n.items[l].Entry?
    decreases j - i
  {
    if i == j then ""
    else RenderEntry(kind, depth, i == 0, n.items[i]).text + EntriesBetween(kind, depth, n, i + 1, j)
  }

  lemma {:induction false} ItemsBrokenAt(kind: PrintType, depth: int, n: Node, i: nat, j: nat, code: Failure)
    requires n.Internal? && i <= j < |n.items| && n.items[j] == Broken(code)
    requires forall l :: i <= l < j ==>
      n.items[l].Entry? && RenderEntry(kind, depth, l == 0, n.items[l]).rc == EOK
    ensures RenderItems(kind, depth, n, i) == Printed(EntriesBetween(kind, depth, n, i, j), code)
    decreases j - i
  {
    if i < j {
      ItemsBrokenAt(kind, depth, n, i + 1, j, code);
    }
  }

  /** When the iteration fails at step `j` after entries that all printed,
      the node prints `{` and those entries, nothing more, and returns the
      iteration's code unchanged. */
  lemma BrokenIterationPropagates(kind: PrintType, depth: int, n: Node, j: nat, code: Failure)
    requires n.Internal? && j < |n.items| && n.items[j] == Broken(code)
    requires forall l :: 0 <= l < j ==>
      n.items[l].Entry? && RenderEntry(kind, depth + 1, l == 0, n.items[l]).rc == EOK
    ensures Render(kind, depth, n) == Printed("{" + EntriesBetween(kind, depth + 1, n, 0, j), code)
  {
    ItemsBrokenAt(kind, depth + 1, n, 0, j, code);
  }

  lemma {:induction false} ItemsAllPrint(kind: PrintType, depth: int, n: Node, i: nat)
    requires n.Internal? && i <= |n.items|
    requires forall l :: i <= l < |n.items| ==>
      n.items[l].Entry? && RenderEntry(kind, depth, l == 0, n.items[l]).rc == EOK
    ensures RenderItems(kind, depth, n, i) == Printed(EntriesBetween(kind, depth, n, i, |n.items|), EOK)
    decreases |n.items| - i
  {
    if i < |n.items| {
      ItemsAllPrint(kind, depth, n, i + 1);
    }
  }

  /** When every entry prints, an internal node is `{`, its entries one
      level deeper (each after a comma unless it is the first, and a line
      break), a line break at the node's own depth when it has entries, and
      `}`, with EOK. */
  lemma InternalLayout(kind: PrintType, depth: int, n: Node)
    requires n.Internal?
    requires forall l :: 0 <= l < |n.items| ==>
      n.items[l].Entry? && RenderEntry(kind, depth + 1, l == 0, n.items[l]).rc == EOK
    ensures Render(kind, depth, n) ==
      Printed("{" + EntriesBetween(kind, depth + 1, n, 0, |n.items|)
              + (if |n.items| > 0 then NewlineText(depth) else "") + "}", EOK)
  {
    ItemsAllPrint(kind, depth + 1, n, 0);
  }

  /** A boolean node prints as a literal of its format, `True`/`False` in
      Python and `true`/`false` in JSON, and the two values differ. */
  lemma BooleanLiteral(kind: PrintType, depth: int, b: bool)
    ensures Render(kind, depth, Boolean(b)).rc == EOK
    ensures Render(kind, depth, Boolean(b)).text ==
      match kind
      case Python => if b then "True" else "False"
      case Json => if b then "true" else "false"
    ensures Render(kind, depth, Boolean(b)).text != Render(kind, depth, Boolean(!b)).text
  {
  }

  /** A blob node prints as `b"` (Python) or `"` (JSON), the text of its
      bytes, and `"`; the text between the quotes reads back as the blob. */
  lemma BlobLiteral(kind: PrintType, depth: int, bytes: seq<bv8>)
    ensures var t := Render(kind, depth, Blob(bytes)).text;
      var p := if kind == Python then 2 else 1;
      && |t| == p + 4 * |bytes| + 1
      && t[..p] == (if kind == Python then "b\"" else "\"") && t[|t| - 1] == '"'
      && UnhexBytes(t[p..|t| - 1]) == Some(bytes)
  {
    var t := Render(kind, depth, Blob(bytes)).text;
    var p := if kind == Python then 2 else 1;
    assert t[p..|t| - 1] == HexBytes(bytes);
    BlobBytesRoundTrip(bytes);
  }

  /** An entry whose key prints: the separator and line break, the key,
      `: ` and the value, whose code is returned. The key is wrapped in double
      quotes exactly in JSON when it is not a string. */
  lemma EntryLayout(kind: PrintType, depth: int, first: bool, key: Node, value: Node)
    requires Render(kind, depth, key).rc == EOK
    ensures var k := Render(kind, depth, key).text;
      var v := Render(kind, depth, value);
      var head := (if first then "" else ",") + NewlineText(depth);
      var e := RenderEntry(kind, depth, first, Entry(key, value));
      && e.rc == v.rc
      && (kind == Json && !key.Str? ==> e.text == head + "\"" + k + "\": " + v.text)
      && (kind == Python || key.Str? ==> e.text == head + k + ": " + v.text)
  {
  }

  /** An entry whose key fails prints the separator, line break, opening
      quote if any and what the key printed, then stops with the key's code:
      the value is not printed. */
  lemma EntryKeyFailure(kind: PrintType, depth: int, first: bool, key: Node, value: Node)
    requires Render(kind, depth, key).rc != EOK
    ensures RenderEntry(kind, depth, first, Entry(key, value)) ==
      Printed((if first then "" else ",") + NewlineText(depth)
              + (if kind == Json && !key.Str? then "\"" else "") + Render(kind, depth, key).text,
              Render(kind, depth, key).rc)
  {
  }

  /** The printer's state: the output format, whether the next entry is the
      first of its node, the nesting depth, and everything printed so far. */
  class Printer {
    const kind: PrintType
    var first: bool
    var depth: int
    var out: string

    /** The initial state of `bithenge_print_node`. */
    constructor (kind: PrintType)
      ensures this.kind == kind && first && depth == 0 && out == []
    {
      this.kind := kind;
      first := true;
      depth := 0;
      out := [];
    }

    /** `newline` */
    method Newline()
      modifies this`out
      ensures out == old(out) + NewlineText(depth)
    {
      out := out + "\n";
      var i := 0;
      while i < depth
        invariant 0 <= i <= (if depth > 0 then depth else 0)
        invariant out == old(out) + "\n" + Indent(i)
      {
        out := out + "    ";
        i := i + 1;
      }
    }

    /** `print_boolean` */
    method PrintBoolean(b: bool) returns (rc: Errno)
      modifies this`out
      ensures out == old(out) + BoolText(kind, b) && rc == EOK
    {
      match kind {
        case Python => out := out + (if b then "True" else "False");
        case Json => out := out + (if b then "true" else "false");
      }
      rc := EOK;
    }

    /** `print_integer` */
    method PrintInteger(v: int) returns (rc: Errno)
      modifies this`out
      ensures out == old(out) + Decimal(v) && rc == EOK
    {
      out := out + Decimal(v);
      rc := EOK;
    }

    /** `print_string` */
    method PrintString(chars: seq<Decoded>) returns (rc: Errno)
      modifies this`out
      ensures out == old(out) + StringText(chars).text && rc == StringText(chars).rc
    {
      out := out + "\"";
      ghost var start := out;
      ghost var done := "";
      var i := 0;
      while i < |chars|
        invariant i <= |chars|
        invariant out == start + done
        invariant StringBody(chars, 0).text == done + StringBody(chars, i).text
        invariant StringBody(chars, 0).rc == StringBody(chars, i).rc
      {
        match chars[i] {
          case Invalid(code) =>
            assert StringBody(chars, i).text == "";
            assert done + "" == done;
            AppendAssoc(old(out), "\"", done);
            return code;
          case Char(c) =>
            StringBodyStep(chars, i, done);
            AppendAssoc(start, done, EscapeChar(c));
            out := out + EscapeChar(c);
            done := done + EscapeChar(c);
        }
        i := i + 1;
      }
      assert done + "" == done;
      AppendAssoc(old(out), "\"", done);
      AppendAssoc(old(out), "\"" + done, "\"");
      out := out + "\"";
      rc := EOK;
    }

    /** `print_blob`: reads the blob in chunks of `CHUNK_SIZE` bytes until a
        chunk comes back short, printing each byte. */
    method PrintBlob(bytes: seq<bv8>) returns (rc: Errno)
      modifies this`out
      ensures out == old(out) + BlobPrefix(kind) + HexBytes(bytes) + "\"" && rc == EOK
    {
      out := out + (if kind == Python then "b\"" else "\"");
      ghost var start := out;
      assert bytes[..0] == [];
      var pos := 0;
      var size := CHUNK_SIZE;
      var more := true;
      while more
        invariant pos <= |bytes|
        invariant more ==> size == CHUNK_SIZE
        invariant !more ==> pos == |bytes|
        invariant out == start + HexBytes(bytes[..pos])
        decreases |bytes| - pos + (if more then 1 else 0)
      {
        size := PrintChunk(bytes, pos, size);
        HexPrefixStep(start, bytes, pos, size);
        pos := pos + size;
        more := size == CHUNK_SIZE;
      }
      assert bytes[..pos] == bytes;
      out := out + "\"";
      rc := EOK;
    }

    /** One round of `print_blob`'s outer loop: reads up to `size` bytes at
        `pos` and prints them; returns how many were read. */
    method PrintChunk(bytes: seq<bv8>, pos: nat, size: nat) returns (n: nat)
      requires pos <= |bytes|
      modifies this`out
      ensures n <= size && pos + n <= |bytes| && (n < size ==> pos + n == |bytes|)
      ensures out == old(out) + HexBytes(bytes[pos..pos + n])
    {
      var buffer := BlobRead(bytes, pos, size);
      PrintBytes(buffer);
      n := |buffer|;
    }

    /** The inner loop of `print_blob`: each byte of a chunk as `\xNN`. */
    method PrintBytes(buffer: seq<bv8>)
      modifies this`out
      ensures out == old(out) + HexBytes(buffer)
    {
      var i := 0;
      assert buffer[..0] == [];
      while i < |buffer|
        invariant i <= |buffer|
        invariant out == old(out) + HexBytes(buffer[..i])
      {
        HexBytesSnoc(buffer, i);
        AppendAssoc(old(out), HexBytes(buffer[..i]), ByteText(buffer[i]));
        out := out + ByteText(buffer[i]);
        i := i + 1;
      }
      assert buffer[..i] == buffer;
    }

    /** `print_node`: on success the depth is as before, and `first` is
        cleared by an internal node and untouched by any other. */
    method PrintNode(n: Node) returns (rc: Errno)
      modifies this
      ensures out == old(out) + Render(kind, old(depth), n).text
      ensures rc == Render(kind, old(depth), n).rc
      ensures rc == EOK ==> depth == old(depth) && first == (if n.Internal? then false else old(first))
      decreases n, 3
    {
      match n {
        case Internal(_) => rc := PrintInternal(n);
        case Boolean(b) => rc := PrintBoolean(b);
        case Integer(v) => rc := PrintInteger(v);
        case Str(chars) => rc := PrintString(chars);
        case Blob(bytes) => rc := PrintBlob(bytes);
        case Unknown => rc := ENOTSUP;
      }
    }

    /** `print_internal`. */
    method PrintInternal(n: Node) returns (rc: Errno)
      requires n.Internal?
      modifies this
      ensures out == old(out) + Render(kind, old(depth), n).text
      ensures rc == Render(kind, old(depth), n).rc
      ensures rc == EOK ==> depth == old(depth) && !first
      decreases n, 2
    {
      ghost var body := RenderItems(kind, old(depth) + 1, n, 0);
      out := out + "{";
      depth := depth + 1;
      first := true;
      rc := ForEachEntry(n);
      AppendAssoc(old(out), "{", body.text);
      if rc != EOK {
        return;
      }
      ghost var nl := if |n.items| > 0 then NewlineText(old(depth)) else "";
      assert Render(kind, old(depth), n) == Printed("{" + body.text + nl + "}", EOK);
      depth := depth - 1;
      if !first {
        Newline();
      } else {
        assert out + nl == out;
      }
      AppendAssoc(old(out), "{" + body.text, nl);
      first := false;
      AppendAssoc(old(out), "{" + body.text + nl, "}");
      out := out + "}";
    }

    /** `bithenge_node_for_each` calling `print_internal_func` on each entry
        of `n` in turn, until one fails or the iteration itself fails. */
    method ForEachEntry(n: Node) returns (rc: Errno)
      requires n.Internal? && first
      modifies this
      ensures out == old(out) + RenderItems(kind, old(depth), n, 0).text
      ensures rc == RenderItems(kind, old(depth), n, 0).rc
      ensures rc == EOK ==> depth == old(depth) && first == (|n.items| == 0)
      decreases n, 1
    {
      ghost var d := depth;
      ghost var done := "";
      var i := 0;
      while i < |n.items|
        invariant i <= |n.items|
        invariant depth == d && first == (i == 0)
        invariant out == old(out) + done
        invariant RenderItems(kind, d, n, 0).text == done + RenderItems(kind, d, n, i).text
        invariant RenderItems(kind, d, n, 0).rc == RenderItems(kind, d, n, i).rc
      {
        match n.items[i] {
          case Broken(code) =>
            assert RenderItems(kind, d, n, i) == Printed("", code);
            assert done + "" == done;
            return code;
          case Entry(_, _) =>
            ghost var e := RenderEntry(kind, d, i == 0, n.items[i]);
            AppendAssoc(old(out), done, e.text);
            rc := PrintEntry(n.items[i]);
            if rc != EOK {
              assert RenderItems(kind, d, n, i) == e;
              return;
            }
            ghost var rest := RenderItems(kind, d, n, i + 1);
            assert RenderItems(kind, d, n, i) == Printed(e.text + rest.text, rest.rc);
            AppendAssoc(done, e.text, rest.text);
            done := done + e.text;
        }
        i := i + 1;
      }
      assert done + "" == done;
      rc := EOK;
    }

    /** `print_internal_func` */
    method PrintEntry(item: Item) returns (rc: Errno)
      requires item.Entry?
      modifies this
      ensures out == old(out) + RenderEntry(kind, old(depth), old(first), item).text
      ensures rc == RenderEntry(kind, old(depth), old(first), item).rc
      ensures rc == EOK ==> depth == old(depth) && !first
      decreases item
    {
      ghost var sep := if first then "" else ",";
      ghost var nl := NewlineText(depth);
      ghost var q := if AddQuotes(kind, item.key) then "\"" else "";
      ghost var k := Render(kind, depth, item.key);
      ghost var v := Render(kind, depth, item.value);
      ghost var r := RenderEntry(kind, depth, first, item);
      assert k.rc != EOK ==> r == Printed(sep + nl + q + k.text, k.rc);
      assert k.rc == EOK ==> r == Printed(sep + nl + q + k.text + q + ": " + v.text, v.rc);
      if !first {
        out := out + ",";
      } else {
        assert out + sep == out;
      }
      Newline();
      AppendAssoc(old(out), sep, nl);
      first := false;
      var addQuotes := kind == Json && !item.key.Str?;
      if addQuotes {
        out := out + "\"";
      } else {
        assert out + q == out;
      }
      AppendAssoc(old(out), sep + nl, q);
      rc := PrintNode(item.key);
      AppendAssoc(old(out), sep + nl + q, k.text);
      if rc != EOK {
        return;
      }
      if addQuotes {
        out := out + "\"";
      } else {
        assert out + q == out;
      }
      AppendAssoc(old(out), sep + nl + q + k.text, q);
      out := out + ": ";
      AppendAssoc(old(out), sep + nl + q + k.text + q, ": ");
      rc := PrintNode(item.value);
      AppendAssoc(old(out), sep + nl + q + k.text + q + ": ", v.text);
    }
  }

  lemma AppendAssoc(a: string, b: string, c: string)
    ensures a + b + c == a + (b + c)
  {
  }

  /** `bithenge_print_node`: prints `tree` from depth 0 with `first` set;
      the output is returned as text. */
  method PrintTree(kind: PrintType, tree: Node) returns (rc: Errno, text: string)
    ensures text == Render(kind, 0, tree).text && rc == Render(kind, 0, tree).rc
    ensures rc == FirstFailure(tree)
    ensures rc == EOK <==> WellFormed(tree)
  {
    var state := new Printer(kind);
    rc := state.PrintNode(tree);
    text := state.out;
    ErrorsComeFromTree(kind, 0, tree);
  }
}
