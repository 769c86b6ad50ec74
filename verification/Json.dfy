/**
 * The JSON printer and parser of tachyon/src/json.rs on bytes (RFC 8259). A
 * string is its UTF-8 bytes; how a number is written and read is a parameter.
 */
module Json {
  import opened Options

  type Bytes = seq<int>

  datatype Json = Null | Bool(b: bool) | Num(n: real) | Str(s: Bytes) | Arr(items: seq<Json>) | Obj(entries: seq<Entry>)

  datatype Entry = Entry(key: Bytes, value: Json)

  /** Number text both ways, and which bytes are UTF-8. */
  datatype Text = Text(show: real -> Bytes, read: Bytes -> Option<real>, utf8: Bytes -> bool)

  const QUOTE: int := 34
  const COMMA: int := 44
  const COLON: int := 58
  const SPACE: int := 32
  const BACKSLASH: int := 92
  const LETTER_U: int := 117
  const OPEN_ARRAY: int := 91
  const CLOSE_ARRAY: int := 93
  const OPEN_OBJECT: int := 123
  const CLOSE_OBJECT: int := 125
  const NULL: Bytes := [110, 117, 108, 108]
  const TRUE: Bytes := [116, 114, 117, 101]
  const FALSE: Bytes := [102, 97, 108, 115, 101]

  // ------------------------------------------------------------------
  // Printing
  // ------------------------------------------------------------------

  function HexDigit(k: int): int
    requires 0 <= k < 16
  {
    if k < 10 then 48 + k else 87 + k
  }

  /** One byte of a string as it is printed. Bytes of longer characters are all above these. */
  function Printed(c: int): Bytes {
    if c == QUOTE || c == BACKSLASH then [BACKSLASH, c]
    else if c == 10 then [BACKSLASH, 110]
    else if c == 13 then [BACKSLASH, 114]
    else if c == 9 then [BACKSLASH, 116]
    else if 0 <= c < 32 then [BACKSLASH, LETTER_U, 48, 48, HexDigit(c / 16), HexDigit(c % 16)]
    else [c]
  }

  function PrintedAll(s: Bytes): Bytes {
    if s == [] then [] else Printed(s[0]) + PrintedAll(s[1..])
  }

  function Quoted(s: Bytes): Bytes { [QUOTE] + PrintedAll(s) + [QUOTE] }

  function Dumps(t: Text, v: Json): Bytes
    decreases v, 0
  {
    match v
    case Null => NULL
    case Bool(b) => if b then TRUE else FALSE
    case Num(n) => t.show(n)
    case Str(s) => Quoted(s)
    case Arr(items) => [OPEN_ARRAY] + DumpsItems(t, items) + [CLOSE_ARRAY]
    case Obj(entries) => [OPEN_OBJECT] + DumpsEntries(t, entries) + [CLOSE_OBJECT]
  }

  function DumpsItems(t: Text, items: seq<Json>): Bytes
    decreases items
  {
    if items == [] then []
    else if |items| == 1 then Dumps(t, items[0])
    else Dumps(t, items[0]) + [COMMA, SPACE] + DumpsItems(t, items[1..])
  }

  function DumpsEntry(t: Text, e: Entry): Bytes
    decreases e, 1
  {
    Quoted(e.key) + [COLON, SPACE] + Dumps(t, e.value)
  }

  function DumpsEntries(t: Text, entries: seq<Entry>): Bytes
    decreases entries
  {
    if entries == [] then []
    else if |entries| == 1 then DumpsEntry(t, entries[0])
    else DumpsEntry(t, entries[0]) + [COMMA, SPACE] + DumpsEntries(t, entries[1..])
  }

  // ------------------------------------------------------------------
  // Parsing: a value and the bytes after it
  // ------------------------------------------------------------------

  predicate Blank(c: int) { c == 32 || c == 9 || c == 10 || c == 12 || c == 13 }

  function Skip(s: Bytes): (r: Bytes)
    ensures |r| <= |s| && (r == [] || !Blank(r[0]))
  {
    if s != [] && Blank(s[0]) then Skip(s[1..]) else s
  }

  function Eat(s: Bytes, word: Bytes): Option<Bytes> {
    if |word| <= |s| && s[..|word|] == word then Some(s[|word|..]) else None
  }

  function HexValue(c: int): Option<nat> {
    if 48 <= c <= 57 then Some(c - 48)
    else if 97 <= c <= 102 then Some(c - 87)
    else if 65 <= c <= 70 then Some(c - 55)
    else None
  }

  function HexNumber(s: Bytes): Option<nat> {
    if s == [] then Some(0)
    else
      match (HexNumber(s[..|s| - 1]), HexValue(s[|s| - 1]))
      case (Some(h), Some(d)) => Some(16 * h + d)
      case _ => None
  }

  /** Four bytes as a number in base 16; a sign may lead it. */
  function Hex4(s: Bytes): Option<nat> {
    if |s| < 4 then None
    else if s[0] == 43 then HexNumber(s[1..4])
    else HexNumber(s[..4])
  }

  /** A character's UTF-8 bytes; what is no character becomes U+FFFD. */
  function Utf8(code: nat): Bytes {
    if code < 0x80 then [code]
    else if code < 0x800 then [0xC0 + code / 64, 0x80 + code % 64]
    else if 0xD800 <= code < 0xE000 || code >= 0x11_0000 then [0xEF, 0xBF, 0xBD]
    else if code < 0x1_0000 then [0xE0 + code / 4096, 0x80 + code / 64 % 64, 0x80 + code % 64]
    else [0xF0 + code / 262144, 0x80 + code / 4096 % 64, 0x80 + code / 64 % 64, 0x80 + code % 64]
  }

  /** After \u: the character, and the rest; a high surrogate takes the escape after it, in 32-bit arithmetic. */
  function Unicode(s: Bytes): (r: Option<(Bytes, Bytes)>)
    ensures r.Some? ==> |r.value.1| < |s|
  {
    match Hex4(s)
    case None => None
    case Some(hi) =>
      var rest := s[4..];
      if 0xD800 <= hi < 0xDC00 && Eat(rest, [BACKSLASH, LETTER_U]).Some? then
        var after := rest[2..];
        match Hex4(after)
        case None => None
        case Some(lo) => Some((Utf8((0x1_0000 + (hi - 0xD800) * 1024 + (lo - 0xDC00)) % 0x1_0000_0000), after[4..]))
      else Some((Utf8(hi), rest))
  }

  /** After a backslash: the bytes it stands for, and the rest. */
  function Escape(s: Bytes): (r: Option<(Bytes, Bytes)>)
    ensures r.Some? ==> |r.value.1| < |s|
  {
    if s == [] then None
    else
      var c, rest := s[0], s[1..];
      if c == 110 then Some(([10], rest))
      else if c == 116 then Some(([9], rest))
      else if c == 114 then Some(([13], rest))
      else if c == 98 then Some(([8], rest))
      else if c == 102 then Some(([12], rest))
      else if c == LETTER_U then Unicode(rest)
      else Some((if 0 <= c then Utf8(c) else [c], rest))
  }

  /** The bytes of a string up to its closing quote, and the rest. */
  function StringBody(s: Bytes): (r: Option<(Bytes, Bytes)>)
    ensures r.Some? ==> |r.value.1| < |s|
    decreases |s|
  {
    if s == [] then None
    else if s[0] == QUOTE then Some(([], s[1..]))
    else if s[0] == BACKSLASH then
      (match Escape(s[1..])
       case None => None
       case Some((c, rest)) =>
         match StringBody(rest)
         case None => None
         case Some((more, after)) => Some((c + more, after)))
    else
      match StringBody(s[1..])
      case None => None
      case Some((more, after)) => Some(([s[0]] + more, after))
  }

  function String(t: Text, s: Bytes): (r: Option<(Bytes, Bytes)>)
    ensures r.Some? ==> |r.value.1| < |s|
  {
    match Eat(s, [QUOTE])
    case None => None
    case Some(rest) =>
      match StringBody(rest)
      case None => None
      case Some((out, after)) => if t.utf8(out) then Some((out, after)) else None
  }

  predicate NumberByte(c: int) { c == 43 || c == 45 || c == 46 || c == 101 || c == 69 || 48 <= c <= 57 }

  function NumberEnd(s: Bytes): (n: nat)
    ensures n <= |s| && (forall i | 0 <= i < n :: NumberByte(s[i])) && (n < |s| ==> !NumberByte(s[n]))
  {
    if s == [] || !NumberByte(s[0]) then 0 else 1 + NumberEnd(s[1..])
  }

  function Number(t: Text, s: Bytes): (r: Option<(Json, Bytes)>)
    requires s != [] && NumberByte(s[0])
    ensures r.Some? ==> |r.value.1| < |s|
  {
    var n := NumberEnd(s);
    match t.read(s[..n])
    case None => None
    case Some(x) => Some((Num(x), s[n..]))
  }

  function Word(s: Bytes): (r: Option<(Json, Bytes)>)
    ensures r.Some? ==> |r.value.1| < |s|
  {
    if Eat(s, NULL).Some? then Some((Null, s[4..]))
    else if Eat(s, TRUE).Some? then Some((Bool(true), s[4..]))
    else if Eat(s, FALSE).Some? then Some((Bool(false), s[5..]))
    else None
  }

  function Value(t: Text, s0: Bytes): (r: Option<(Json, Bytes)>)
    ensures r.Some? ==> |r.value.1| < |s0|
    decreases |s0|, 2
  {
    var s := Skip(s0);
    if s == [] then None
    else if s[0] == OPEN_OBJECT then
      (match Object(t, s[1..]) case None => None case Some((es, rest)) => Some((Obj(es), rest)))
    else if s[0] == OPEN_ARRAY then
      (match Array(t, s[1..]) case None => None case Some((vs, rest)) => Some((Arr(vs), rest)))
    else if s[0] == QUOTE then
      (match String(t, s) case None => None case Some((x, rest)) => Some((Str(x), rest)))
    else if 48 <= s[0] <= 57 || s[0] == 45 then Number(t, s)
    else Word(s)
  }

  function Array(t: Text, s: Bytes): (r: Option<(seq<Json>, Bytes)>)
    ensures r.Some? ==> |r.value.1| < |s|
    decreases |s|, 4
  {
    match Eat(Skip(s), [CLOSE_ARRAY])
    case Some(rest) => Some(([], rest))
    case None => Items(t, Skip(s))
  }

  /** Items up to the closing bracket. */
  function Items(t: Text, s: Bytes): (r: Option<(seq<Json>, Bytes)>)
    ensures r.Some? ==> |r.value.1| < |s|
    decreases |s|, 3
  {
    match Value(t, s)
    case None => None
    case Some((v, rest)) =>
      var after := Skip(rest);
      match Eat(after, [CLOSE_ARRAY])
      case Some(end) => Some(([v], end))
      case None =>
        match Eat(after, [COMMA])
        case None => None
        case Some(more) =>
          match Items(t, Skip(more))
          case None => None
          case Some((vs, end)) => Some(([v] + vs, end))
  }

  function Member(t: Text, s: Bytes): (r: Option<(Entry, Bytes)>)
    ensures r.Some? ==> |r.value.1| < |s|
    decreases |s|, 2
  {
    match String(t, s)
    case None => None
    case Some((k, rest)) =>
      match Eat(Skip(rest), [COLON])
      case None => None
      case Some(after) =>
        match Value(t, after)
        case None => None
        case Some((v, end)) => Some((Entry(k, v), end))
  }

  function Object(t: Text, s: Bytes): (r: Option<(seq<Entry>, Bytes)>)
    ensures r.Some? ==> |r.value.1| < |s|
    decreases |s|, 4
  {
    match Eat(Skip(s), [CLOSE_OBJECT])
    case Some(rest) => Some(([], rest))
    case None => Members(t, Skip(s))
  }

  /** Members up to the closing brace. */
  function Members(t: Text, s: Bytes): (r: Option<(seq<Entry>, Bytes)>)
    ensures r.Some? ==> |r.value.1| < |s|
    decreases |s|, 3
  {
    match Member(t, s)
    case None => None
    case Some((e, rest)) =>
      var after := Skip(rest);
      match Eat(after, [CLOSE_OBJECT])
      case Some(end) => Some(([e], end))
      case None =>
        match Eat(after, [COMMA])
        case None => None
        case Some(more) =>
          match Members(t, Skip(more))
          case None => None
          case Some((es, end)) => Some(([e] + es, end))
  }

  /** A whole document. */
  function Parse(t: Text, s: Bytes): Option<Json> {
    match Value(t, s)
    case None => None
    case Some((v, rest)) => if Skip(rest) == [] then Some(v) else None
  }

  // ------------------------------------------------------------------
  // Parsing undoes printing
  // ------------------------------------------------------------------

  /** Number text that starts like a number, is all number bytes, and reads back. */
  predicate NumberOk(t: Text, n: real) {
    var text := t.show(n);
    && text != [] && (48 <= text[0] <= 57 || text[0] == 45)
    && (forall i | 0 <= i < |text| :: NumberByte(text[i]))
    && t.read(text) == Some(n)
  }

  predicate StringOk(t: Text, s: Bytes) { t.utf8(s) && forall i | 0 <= i < |s| :: 0 <= s[i] < 256 }

  /** Finite numbers and proper strings, at every depth. */
  predicate ValueOk(t: Text, v: Json)
    decreases v
  {
    match v
    case Num(n) => NumberOk(t, n)
    case Str(s) => StringOk(t, s)
    case Arr(items) => forall i | 0 <= i < |items| :: ValueOk(t, items[i])
    case Obj(entries) => forall i | 0 <= i < |entries| :: StringOk(t, entries[i].key) && ValueOk(t, entries[i].value)
    case _ => true
  }

  /** What may follow a value: nothing that would prolong a number. */
  predicate Ends(post: Bytes) { post == [] || !NumberByte(post[0]) }

  lemma HexRoundTrip(k: int)
    requires 0 <= k < 16
    ensures HexValue(HexDigit(k)) == Some(k)
  {}

  lemma ControlEscape(c: int, rest: Bytes)
    requires 0 <= c < 32
    ensures Unicode([48, 48, HexDigit(c / 16), HexDigit(c % 16)] + rest) == Some(([c], rest))
  {
    hide HexDigit;
    var d := [48, 48, HexDigit(c / 16), HexDigit(c % 16)];
    HexRoundTrip(c / 16);
    HexRoundTrip(c % 16);
    assert d[..3] == [48, 48, d[2]] && d[..3][..2] == [48, 48] && [48, 48][..1] == [48] && [48][..0] == [];
    assert HexNumber([48]) == Some(0);
    assert HexNumber([48, 48]) == Some(0);
    assert HexNumber(d[..3]) == Some(c / 16);
    assert HexNumber(d) == Some(c);
    var s := d + rest;
    assert s[..4] == d && s[4..] == rest;
  }

  /** The character that UTF-8 bytes stand for (section 3 of RFC 3629), by their leading bits. */
  function FromUtf8(b: Bytes): Option<nat> {
    var tail := forall i | 1 <= i < |b| :: 0x80 <= b[i] <= 0xBF;
    if |b| == 1 && 0 <= b[0] <= 0x7F then Some(b[0])
    else if |b| == 2 && 0xC0 <= b[0] <= 0xDF && tail then Some((b[0] - 0xC0) * 64 + (b[1] - 0x80))
    else if |b| == 3 && 0xE0 <= b[0] <= 0xEF && tail then Some((b[0] - 0xE0) * 4096 + (b[1] - 0x80) * 64 + (b[2] - 0x80))
    else if |b| == 4 && 0xF0 <= b[0] <= 0xF7 && tail then
      Some((b[0] - 0xF0) * 262144 + (b[1] - 0x80) * 4096 + (b[2] - 0x80) * 64 + (b[3] - 0x80))
    else None
  }

  predicate Scalar(code: nat) { code < 0x11_0000 && !(0xD800 <= code < 0xE000) }

  lemma Utf8Decodes(code: nat)
    requires Scalar(code)
    ensures FromUtf8(Utf8(code)) == Some(code) && forall i | 0 <= i < |Utf8(code)| :: 0 <= Utf8(code)[i] < 256
  {
    assert code / 4096 == (code / 64) / 64 && code / 262144 == (code / 4096) / 64;
  }

  /** Four digits in base 16. */
  function HexDigits(n: nat): (d: Bytes)
    requires n < 0x1_0000
    ensures |d| == 4
  {
    [HexDigit(n / 4096), HexDigit(n / 256 % 16), HexDigit(n / 16 % 16), HexDigit(n % 16)]
  }

  lemma HexReads(n: nat, rest: Bytes)
    requires n < 0x1_0000
    ensures Hex4(HexDigits(n) + rest) == Some(n) && (HexDigits(n) + rest)[4..] == rest
  {
    hide HexDigit;
    var a, b, c, e := n / 4096, n / 256 % 16, n / 16 % 16, n % 16;
    HexRoundTrip(a);
    HexRoundTrip(b);
    HexRoundTrip(c);
    HexRoundTrip(e);
    var d, s := HexDigits(n), HexDigits(n) + rest;
    assert s[..4] == d && s[4..] == rest;
    assert d[..3] == [d[0], d[1], d[2]] && d[..3][..2] == [d[0], d[1]] && [d[0], d[1]][..1] == [d[0]] && [d[0]][..0] == [];
    assert HexNumber([d[0]]) == Some(a);
    assert HexNumber([d[0], d[1]]) == Some(16 * a + b);
    assert HexNumber(d[..3]) == Some(16 * (16 * a + b) + c);
    assert HexNumber(d) == Some(16 * (16 * (16 * a + b) + c) + e);
    assert n / 256 == 16 * a + b && n / 16 == 16 * (n / 256) + c;
    DigitNotSign(a);
  }

  lemma DigitNotSign(d: nat)
    requires d < 16
    ensures HexDigit(d) != 43
  {}

  /** A character as \u escapes it, after the first \u: its code, or the surrogates of section 2.5 of RFC 2781. */
  function Escaped(code: nat): Bytes
    requires Scalar(code)
  {
    if code < 0x1_0000 then HexDigits(code)
    else HexDigits(0xD800 + (code - 0x1_0000) / 1024) + [BACKSLASH, LETTER_U] + HexDigits(0xDC00 + (code - 0x1_0000) % 1024)
  }

  /** The escape of any character, pairs included, reads as UTF-8 that stands for that character. */
  lemma EscapeReads(code: nat, rest: Bytes)
    requires Scalar(code)
    ensures var r := Unicode(Escaped(code) + rest); r.Some? && r.value.1 == rest && FromUtf8(r.value.0) == Some(code)
  {
    hide Utf8, FromUtf8, Hex4, HexDigits;
    Utf8Decodes(code);
    if code < 0x1_0000 {
      HexReads(code, rest);
    } else {
      var k := code - 0x1_0000;
      var hi, lo := 0xD800 + k / 1024, 0xDC00 + k % 1024;
      var after := HexDigits(lo) + rest;
      var tail := [BACKSLASH, LETTER_U] + after;
      assert Escaped(code) + rest == HexDigits(hi) + tail;
      HexReads(hi, tail);
      HexReads(lo, rest);
      assert tail[..2] == [BACKSLASH, LETTER_U] && tail[2..] == after;
    }
  }

  /** Half a pair without its other half reads as U+FFFD. */
  lemma LoneSurrogate(half: nat, rest: Bytes)
    requires 0xD800 <= half < 0xE000 && !(|rest| >= 2 && rest[0] == BACKSLASH && rest[1] == LETTER_U)
    ensures var r := Unicode(HexDigits(half) + rest); r.Some? && r.value.1 == rest && FromUtf8(r.value.0) == Some(0xFFFD)
  {
    hide Hex4, HexDigits;
    HexReads(half, rest);
    if |rest| >= 2 {
      assert rest[..2][0] == rest[0] && rest[..2][1] == rest[1];
    }
  }

  /** One printed byte reads back as itself. */
  lemma PrintedReads(c: int, rest: Bytes)
    requires 0 <= c < 256
    ensures StringBody(rest).Some? ==>
      StringBody(Printed(c) + rest) == Some(([c] + StringBody(rest).value.0, StringBody(rest).value.1))
  {
    hide HexDigit, Unicode;
    var s := Printed(c) + rest;
    if s[0] == BACKSLASH {
      if 0 <= c < 32 && c != 10 && c != 13 && c != 9 {
        var d := [48, 48, HexDigit(c / 16), HexDigit(c % 16)];
        ControlEscape(c, rest);
        assert s[1..] == [LETTER_U] + (d + rest);
        assert s[1..][1..] == d + rest;
        assert Escape(s[1..]) == Some(([c], rest));
      } else {
        assert s[1..][1..] == rest;
        assert Escape(s[1..]) == Some(([c], rest));
      }
    } else {
      assert s[1..] == rest;
    }
  }

  lemma {:induction false} StringReads(s: Bytes, post: Bytes)
    requires forall i | 0 <= i < |s| :: 0 <= s[i] < 256
    ensures StringBody(PrintedAll(s) + [QUOTE] + post) == Some((s, post))
    decreases |s|
  {
    hide Printed;
    if s == [] {
      var w := PrintedAll(s) + [QUOTE] + post;
      assert w[0] == QUOTE && w[1..] == post;
    } else {
      var rest := PrintedAll(s[1..]) + [QUOTE] + post;
      StringReads(s[1..], post);
      PrintedReads(s[0], rest);
      assert PrintedAll(s) + [QUOTE] + post == Printed(s[0]) + rest;
      assert [s[0]] + s[1..] == s;
    }
  }

  lemma QuotedReads(t: Text, s: Bytes, post: Bytes)
    requires StringOk(t, s)
    ensures String(t, Quoted(s) + post) == Some((s, post))
  {
    hide StringBody, PrintedAll;
    StringReads(s, post);
    var w := Quoted(s) + post;
    assert w[..1] == [QUOTE] && w[1..] == PrintedAll(s) + [QUOTE] + post;
  }

  lemma NumberStops(text: Bytes, post: Bytes)
    requires (forall i | 0 <= i < |text| :: NumberByte(text[i])) && Ends(post)
    ensures NumberEnd(text + post) == |text|
  {
    var s := text + post;
    assert forall i | 0 <= i < |text| :: s[i] == text[i];
    assert post != [] ==> s[|text|] == post[0];
  }

  lemma NumberReads(t: Text, n: real, post: Bytes)
    requires NumberOk(t, n) && Ends(post)
    ensures Value(t, t.show(n) + post) == Some((Num(n), post))
  {
    var text := t.show(n);
    NumberStops(text, post);
    var s := text + post;
    assert s[0] == text[0];
    assert Skip(s) == s;
    assert s[..|text|] == text && s[|text|..] == post;
  }

  lemma WordReads(t: Text, post: Bytes)
    ensures Value(t, NULL + post) == Some((Null, post))
    ensures Value(t, TRUE + post) == Some((Bool(true), post))
    ensures Value(t, FALSE + post) == Some((Bool(false), post))
  {
    WordRead(t, NULL, post);
    WordRead(t, TRUE, post);
    WordRead(t, FALSE, post);
  }

  lemma WordRead(t: Text, word: Bytes, post: Bytes)
    requires word in {NULL, TRUE, FALSE}
    ensures Value(t, word + post) == Some((if word == NULL then Null else Bool(word == TRUE), post))
  {
    var s := word + post;
    assert s[0] == word[0];
    assert Skip(s) == s;
    assert s[..|word|] == word && s[|word|..] == post;
    if word != NULL {
      assert s[..4][0] != NULL[0];
    }
    if word == FALSE {
      assert s[..4][0] != TRUE[0];
    }
  }

  lemma EatSkips(c: int, post: Bytes)
    requires !Blank(c)
    ensures Skip([c] + post) == [c] + post && Eat([c] + post, [c]) == Some(post)
    ensures forall d | d != c :: Eat([c] + post, [d]).None?
  {
    var s := [c] + post;
    assert s[..1] == [c] && s[1..] == post;
    forall d | d != c ensures Eat(s, [d]).None? { assert s[..1][0] != d; }
  }

  /** After a separator the next item starts at once. */
  lemma Separated(post: Bytes)
    requires post != [] && !Blank(post[0])
    ensures Skip([SPACE] + post) == post
  {
    var s := [SPACE] + post;
    assert s[1..] == post;
  }

  lemma DumpsStarts(t: Text, v: Json)
    requires ValueOk(t, v)
    ensures Dumps(t, v) != [] && !Blank(Dumps(t, v)[0]) && Dumps(t, v)[0] != CLOSE_ARRAY && Dumps(t, v)[0] != CLOSE_OBJECT && Dumps(t, v)[0] != COMMA
  {}

  lemma {:induction false} ValueReads(t: Text, v: Json, post: Bytes)
    requires ValueOk(t, v) && Ends(post)
    ensures Value(t, Dumps(t, v) + post) == Some((v, post))
    decreases v, 0
  {
    hide Value, DumpsItems, DumpsEntries, Quoted;
    match v
    case Null => WordReads(t, post);
    case Bool(b) => WordReads(t, post);
    case Num(n) => NumberReads(t, n, post);
    case Str(s) => StrReads(t, s, post);
    case Arr(items) =>
      if items != [] {
        ItemsRead(t, items, post);
      }
      ArrReads(t, items, post);
    case Obj(entries) =>
      if entries != [] {
        MembersRead(t, entries, post);
      }
      ObjReads(t, entries, post);
  }

  lemma ArrReads(t: Text, items: seq<Json>, post: Bytes)
    requires forall i | 0 <= i < |items| :: ValueOk(t, items[i])
    requires items != [] ==> Items(t, DumpsItems(t, items) + ([CLOSE_ARRAY] + post)) == Some((items, post))
    ensures Value(t, Dumps(t, Arr(items)) + post) == Some((Arr(items), post))
  {
    hide Value, Items, ValueOk;
    var inner := DumpsItems(t, items) + ([CLOSE_ARRAY] + post);
    assert Dumps(t, Arr(items)) + post == [OPEN_ARRAY] + inner;
    if items == [] {
      assert inner == [CLOSE_ARRAY] + post;
      EatSkips(CLOSE_ARRAY, post);
    } else {
      ItemsStart(t, items);
      StartsItems(inner, CLOSE_ARRAY);
    }
    Opened(t, OPEN_ARRAY, inner);
  }

  lemma ObjReads(t: Text, entries: seq<Entry>, post: Bytes)
    requires entries != [] ==> Members(t, DumpsEntries(t, entries) + ([CLOSE_OBJECT] + post)) == Some((entries, post))
    ensures Value(t, Dumps(t, Obj(entries)) + post) == Some((Obj(entries), post))
  {
    hide Value, Members;
    var inner := DumpsEntries(t, entries) + ([CLOSE_OBJECT] + post);
    assert Dumps(t, Obj(entries)) + post == [OPEN_OBJECT] + inner;
    if entries == [] {
      assert inner == [CLOSE_OBJECT] + post;
      EatSkips(CLOSE_OBJECT, post);
    } else {
      EntriesStart(t, entries);
      StartsItems(inner, CLOSE_OBJECT);
    }
    Opened(t, OPEN_OBJECT, inner);
  }

  lemma StrReads(t: Text, s: Bytes, post: Bytes)
    requires StringOk(t, s)
    ensures Value(t, Quoted(s) + post) == Some((Str(s), post))
  {
    hide String;
    QuotedReads(t, s, post);
    var w := Quoted(s) + post;
    assert w[0] == QUOTE;
    assert Skip(w) == w;
  }

  /** A bracket leads straight into its list. */
  lemma Opened(t: Text, c: int, inner: Bytes)
    requires c == OPEN_ARRAY || c == OPEN_OBJECT
    ensures c == OPEN_ARRAY ==>
      (Value(t, [c] + inner) == match Array(t, inner) case None => None case Some((vs, rest)) => Some((Arr(vs), rest)))
    ensures c == OPEN_OBJECT ==>
      (Value(t, [c] + inner) == match Object(t, inner) case None => None case Some((es, rest)) => Some((Obj(es), rest)))
  {
    hide Array, Object;
    var s := [c] + inner;
    assert s[1..] == inner;
    assert Skip(s) == s;
  }

  lemma StartsItems(inner: Bytes, close: int)
    requires inner != [] && !Blank(inner[0]) && inner[0] != close
    ensures Skip(inner) == inner && Eat(inner, [close]).None?
  {
    assert inner[..1][0] == inner[0];
  }

  lemma ItemsStart(t: Text, items: seq<Json>)
    requires items != [] && forall i | 0 <= i < |items| :: ValueOk(t, items[i])
    ensures var s := DumpsItems(t, items); s != [] && !Blank(s[0]) && s[0] != CLOSE_ARRAY
  {
    hide Dumps;
    DumpsStarts(t, items[0]);
  }

  lemma EntriesStart(t: Text, entries: seq<Entry>)
    requires entries != []
    ensures var s := DumpsEntries(t, entries); s != [] && !Blank(s[0]) && s[0] != CLOSE_OBJECT && s[0] == QUOTE
  {
    hide Dumps, PrintedAll;
  }

  lemma {:induction false} ItemsRead(t: Text, items: seq<Json>, post: Bytes)
    requires items != [] && forall i | 0 <= i < |items| :: ValueOk(t, items[i])
    ensures Items(t, DumpsItems(t, items) + ([CLOSE_ARRAY] + post)) == Some((items, post))
    decreases items
  {
    hide Dumps, Value;
    var v := items[0];
    if |items| == 1 {
      var tail := [CLOSE_ARRAY] + post;
      ValueReads(t, v, tail);
      EatSkips(CLOSE_ARRAY, post);
      assert items == [v];
    } else {
      var more := DumpsItems(t, items[1..]) + ([CLOSE_ARRAY] + post);
      var tail := [COMMA] + ([SPACE] + more);
      assert DumpsItems(t, items) + ([CLOSE_ARRAY] + post) == Dumps(t, v) + tail;
      ValueReads(t, v, tail);
      EatSkips(COMMA, [SPACE] + more);
      ItemsStart(t, items[1..]);
      Separated(more);
      ItemsRead(t, items[1..], post);
      assert items == [v] + items[1..];
    }
  }

  lemma MemberReads(t: Text, e: Entry, post: Bytes)
    requires StringOk(t, e.key) && ValueOk(t, e.value) && Ends(post)
    ensures Member(t, DumpsEntry(t, e) + post) == Some((e, post))
    decreases e, 1
  {
    hide String, Value, Dumps, Quoted;
    var text := Dumps(t, e.value) + post;
    var tail := [COLON] + ([SPACE] + text);
    assert DumpsEntry(t, e) + post == Quoted(e.key) + tail;
    QuotedReads(t, e.key, tail);
    EatSkips(COLON, [SPACE] + text);
    ValueReads(t, e.value, post);
    DumpsStarts(t, e.value);
    Separated(text);
    ValueSkips(t, [SPACE] + text, text);
  }

  lemma ValueSkips(t: Text, s: Bytes, r: Bytes)
    requires Skip(s) == Skip(r)
    ensures Value(t, s) == Value(t, r)
  {}

  lemma {:induction false} MembersRead(t: Text, entries: seq<Entry>, post: Bytes)
    requires entries != [] && forall i | 0 <= i < |entries| :: StringOk(t, entries[i].key) && ValueOk(t, entries[i].value)
    ensures Members(t, DumpsEntries(t, entries) + ([CLOSE_OBJECT] + post)) == Some((entries, post))
    decreases entries
  {
    hide DumpsEntry, Member;
    var e := entries[0];
    if |entries| == 1 {
      var tail := [CLOSE_OBJECT] + post;
      MemberReads(t, e, tail);
      EatSkips(CLOSE_OBJECT, post);
      assert entries == [e];
    } else {
      var more := DumpsEntries(t, entries[1..]) + ([CLOSE_OBJECT] + post);
      var tail := [COMMA] + ([SPACE] + more);
      assert DumpsEntries(t, entries) + ([CLOSE_OBJECT] + post) == DumpsEntry(t, e) + tail;
      MemberReads(t, e, tail);
      EatSkips(COMMA, [SPACE] + more);
      EntriesStart(t, entries[1..]);
      Separated(more);
      MembersRead(t, entries[1..], post);
      assert entries == [e] + entries[1..];
    }
  }

  /** Every value that printing can show is read back whole, with nothing left over. */
  lemma ParseUndoesDumps(t: Text, v: Json)
    requires ValueOk(t, v)
    ensures Parse(t, Dumps(t, v)) == Some(v)
  {
    hide Value, Dumps;
    ValueReads(t, v, []);
    assert Dumps(t, v) + [] == Dumps(t, v);
  }

  // ------------------------------------------------------------------
  // The parser over one buffer
  // ------------------------------------------------------------------

  /** A string's printed form, one byte after another. */
  method Quote(text: Bytes) returns (out: Bytes)
    ensures out == Quoted(text)
  {
    hide Printed;
    out := [QUOTE];
    var i := 0;
    while i < |text|
      invariant i <= |text| && out + PrintedAll(text[i..]) == [QUOTE] + PrintedAll(text)
    {
      assert text[i..][1..] == text[i + 1..];
      assert (out + Printed(text[i])) + PrintedAll(text[i + 1..]) == out + (Printed(text[i]) + PrintedAll(text[i + 1..]));
      out := out + Printed(text[i]);
      i := i + 1;
    }
    assert PrintedAll(text[i..]) == [];
    out := out + [QUOTE];
  }

  class Parser {
    const t: Text
    const s: Bytes
    var i: nat

    constructor (t: Text, s: Bytes)
      ensures this.t == t && this.s == s && i == 0
    {
      this.t, this.s, this.i := t, s, 0;
    }

    /** What has not been read. */
    ghost function Rest(): Bytes
      reads this
    {
      if i <= |s| then s[i..] else []
    }

    method Space()
      requires i <= |s|
      modifies this
      ensures old(i) <= i <= |s| && Rest() == Skip(old(Rest()))
    {
      while i < |s| && Blank(s[i])
        invariant old(i) <= i <= |s| && Skip(s[i..]) == Skip(old(Rest()))
      {
        assert s[i..][1..] == s[i + 1..];
        i := i + 1;
      }
    }

    method EatWord(word: Bytes) returns (found: bool)
      requires i <= |s|
      modifies this
      ensures i <= |s| && found == Eat(old(Rest()), word).Some?
      ensures Rest() == if found then Eat(old(Rest()), word).value else old(Rest())
      ensures i == old(i) + if found then |word| else 0
    {
      found := |word| <= |s| - i && s[i..i + |word|] == word;
      assert |word| <= |s| - i ==> s[i..][..|word|] == s[i..i + |word|];
      if found {
        assert s[i..][|word|..] == s[i + |word|..];
        i := i + |word|;
      }
    }

    method ReadUnicode() returns (r: Option<Bytes>)
      requires i <= |s|
      modifies this
      ensures r.Some? <==> Unicode(old(Rest())).Some?
      ensures r.Some? ==> old(i) < i <= |s| && (r.value, Rest()) == Unicode(old(Rest())).value
    {
      hide Hex4, Utf8;
      var hi := Hex4(s[i..]);
      if hi.None? {
        return None;
      }
      HexNeeds(s[i..]);
      assert s[i..][4..] == s[i + 4..];
      i := i + 4;
      if 0xD800 <= hi.value < 0xDC00 {
        var pair := EatWord([BACKSLASH, LETTER_U]);
        if pair {
          var lo := Hex4(s[i..]);
          if lo.None? {
            return None;
          }
          HexNeeds(s[i..]);
          assert s[i..][4..] == s[i + 4..];
          i := i + 4;
          return Some(Utf8((0x1_0000 + (hi.value - 0xD800) * 1024 + (lo.value - 0xDC00)) % 0x1_0000_0000));
        }
      }
      return Some(Utf8(hi.value));
    }

    method ReadEscape() returns (r: Option<Bytes>)
      requires i <= |s|
      modifies this
      ensures r.Some? <==> Escape(old(Rest())).Some?
      ensures r.Some? ==> old(i) < i <= |s| && (r.value, Rest()) == Escape(old(Rest())).value
    {
      hide Unicode, Utf8;
      if i == |s| {
        return None;
      }
      var c := s[i];
      assert s[i..][1..] == s[i + 1..];
      i := i + 1;
      if c == 110 {
        return Some([10]);
      } else if c == 116 {
        return Some([9]);
      } else if c == 114 {
        return Some([13]);
      } else if c == 98 {
        return Some([8]);
      } else if c == 102 {
        return Some([12]);
      } else if c == LETTER_U {
        r := ReadUnicode();
      } else {
        return Some(if 0 <= c then Utf8(c) else [c]);
      }
    }

    /** The position of the next quote or backslash. */
    method RunEnd() returns (run: nat)
      requires i <= |s|
      ensures i <= run <= |s| && (run < |s| ==> s[run] == QUOTE || s[run] == BACKSLASH)
      ensures forall k | i <= k < run :: s[k] != QUOTE && s[k] != BACKSLASH
    {
      run := i;
      while run < |s| && s[run] != QUOTE && s[run] != BACKSLASH
        invariant i <= run <= |s| && forall k | i <= k < run :: s[k] != QUOTE && s[k] != BACKSLASH
      {
        run := run + 1;
      }
    }

    /** Runs of plain bytes and escapes up to the closing quote. */
    method ReadBody() returns (r: Option<Bytes>)
      requires i <= |s|
      modifies this
      ensures r.Some? <==> StringBody(old(Rest())).Some?
      ensures r.Some? ==> old(i) < i <= |s| && (r.value, Rest()) == StringBody(old(Rest())).value
    {
      hide Escape, StringBody;
      ghost var want := StringBody(Rest());
      var out: Bytes := [];
      AgreesStart(want);
      while true
        invariant old(i) <= i <= |s| && Agrees(want, out, StringBody(Rest()))
        decreases |s| - i
      {
        var run := RunEnd();
        PlainRun(s, i, run);
        AgreesStep(want, out, s[i..run], StringBody(s[i..]), StringBody(s[run..]));
        StringStops(s, run);
        if run == |s| {
          return None;
        }
        out := out + s[i..run];
        i := run + 1;
        if s[run] == QUOTE {
          assert out + [] == out;
          return Some(out);
        }
        var c := ReadEscape();
        if c.None? {
          return None;
        }
        AgreesStep(want, out, c.value, StringBody(s[run..]), StringBody(Rest()));
        out := out + c.value;
      }
    }

    method ReadString() returns (r: Option<Bytes>)
      requires i <= |s|
      modifies this
      ensures r.Some? <==> String(t, old(Rest())).Some?
      ensures r.Some? ==> old(i) < i <= |s| && (r.value, Rest()) == String(t, old(Rest())).value
    {
      hide StringBody;
      var quoted := EatWord([QUOTE]);
      if !quoted {
        return None;
      }
      r := ReadBody();
      if r.Some? && !t.utf8(r.value) {
        return None;
      }
    }

    method ReadNumber() returns (r: Option<Json>)
      requires i < |s| && NumberByte(s[i])
      modifies this
      ensures r.Some? <==> Number(t, old(Rest())).Some?
      ensures r.Some? ==> old(i) < i <= |s| && (r.value, Rest()) == Number(t, old(Rest())).value
    {
      var start := i;
      while i < |s| && NumberByte(s[i])
        invariant start <= i <= |s| && NumberEnd(s[start..]) == i - start + NumberEnd(s[i..])
      {
        assert s[i..][1..] == s[i + 1..];
        i := i + 1;
      }
      assert s[start..][..i - start] == s[start..i] && s[start..][i - start..] == s[i..];
      var x := t.read(s[start..i]);
      return if x.Some? then Some(Num(x.value)) else None;
    }

    method ReadWord() returns (r: Option<Json>)
      requires i <= |s|
      modifies this
      ensures r.Some? <==> Word(old(Rest())).Some?
      ensures r.Some? ==> old(i) < i <= |s| && (r.value, Rest()) == Word(old(Rest())).value
    {
      var found := EatWord(NULL);
      if found {
        return Some(Null);
      }
      found := EatWord(TRUE);
      if found {
        return Some(Bool(true));
      }
      found := EatWord(FALSE);
      return if found then Some(Bool(false)) else None;
    }

    method ReadValue() returns (r: Option<Json>)
      requires i <= |s|
      modifies this
      ensures r.Some? <==> Value(t, old(Rest())).Some?
      ensures r.Some? ==> old(i) < i <= |s| && (r.value, Rest()) == Value(t, old(Rest())).value
      decreases |s| - i, 2
    {
      hide String, Number, Word, Object, Array, Skip;
      Space();
      SkipOnce(old(Rest()));
      if i < |s| && s[i] == OPEN_OBJECT {
        assert s[i..][1..] == s[i + 1..];
        i := i + 1;
        var es := ReadObject();
        r := if es.Some? then Some(Obj(es.value)) else None;
      } else if i < |s| && s[i] == OPEN_ARRAY {
        assert s[i..][1..] == s[i + 1..];
        i := i + 1;
        var vs := ReadArray();
        r := if vs.Some? then Some(Arr(vs.value)) else None;
      } else if i < |s| && s[i] == QUOTE {
        var x := ReadString();
        r := if x.Some? then Some(Str(x.value)) else None;
      } else if i < |s| && (48 <= s[i] <= 57 || s[i] == 45) {
        r := ReadNumber();
      } else {
        WordNone();
        r := ReadWord();
      }
    }

    method ReadArray() returns (r: Option<seq<Json>>)
      requires i <= |s|
      modifies this
      ensures r.Some? <==> Array(t, old(Rest())).Some?
      ensures r.Some? ==> old(i) < i <= |s| && (r.value, Rest()) == Array(t, old(Rest())).value
      decreases |s| - i, 4
    {
      hide Value, Skip, Eat, Items;
      Space();
      var closed := EatWord([CLOSE_ARRAY]);
      if closed {
        return Some([]);
      }
      ghost var want := Items(t, Rest());
      var out: seq<Json> := [];
      AgreesStart(want);
      while true
        invariant old(i) <= i <= |s| && Agrees(want, out, Items(t, Rest()))
        decreases |s| - i
      {
        ghost var cur := Rest();
        ItemsStep(t, cur);
        var v := ReadValue();
        if v.None? {
          return None;
        }
        Space();
        closed := EatWord([CLOSE_ARRAY]);
        if closed {
          return Some(out + [v.value]);
        }
        var comma := EatWord([COMMA]);
        if !comma {
          return None;
        }
        Space();
        AgreesStep(want, out, [v.value], Items(t, cur), Items(t, Rest()));
        out := out + [v.value];
      }
    }

    method ReadMember() returns (r: Option<Entry>)
      requires i <= |s|
      modifies this
      ensures r.Some? <==> Member(t, old(Rest())).Some?
      ensures r.Some? ==> old(i) < i <= |s| && (r.value, Rest()) == Member(t, old(Rest())).value
      decreases |s| - i, 3
    {
      hide String, Value, Skip;
      var k := ReadString();
      if k.None? {
        return None;
      }
      Space();
      var colon := EatWord([COLON]);
      if !colon {
        return None;
      }
      var v := ReadValue();
      r := if v.Some? then Some(Entry(k.value, v.value)) else None;
    }

    method ReadObject() returns (r: Option<seq<Entry>>)
      requires i <= |s|
      modifies this
      ensures r.Some? <==> Object(t, old(Rest())).Some?
      ensures r.Some? ==> old(i) < i <= |s| && (r.value, Rest()) == Object(t, old(Rest())).value
      decreases |s| - i, 4
    {
      hide Member, Skip, Eat, Members;
      Space();
      var closed := EatWord([CLOSE_OBJECT]);
      if closed {
        return Some([]);
      }
      ghost var want := Members(t, Rest());
      var out: seq<Entry> := [];
      AgreesStart(want);
      while true
        invariant old(i) <= i <= |s| && Agrees(want, out, Members(t, Rest()))
        decreases |s| - i
      {
        ghost var cur := Rest();
        MembersStep(t, cur);
        var e := ReadMember();
        if e.None? {
          return None;
        }
        Space();
        closed := EatWord([CLOSE_OBJECT]);
        if closed {
          return Some(out + [e.value]);
        }
        var comma := EatWord([COMMA]);
        if !comma {
          return None;
        }
        Space();
        AgreesStep(want, out, [e.value], Members(t, cur), Members(t, Rest()));
        out := out + [e.value];
      }
    }
  }

  /** The parser's entry point: a whole document. */
  method ParseDocument(t: Text, s: Bytes) returns (r: Option<Json>)
    ensures r == Parse(t, s)
  {
    hide Value, Skip;
    var p := new Parser(t, s);
    assert s[0..] == s;
    var v := p.ReadValue();
    if v.None? {
      return None;
    }
    p.Space();
    return if p.i == |s| then v else None;
  }

  lemma SkipOnce(s: Bytes)
    ensures Skip(Skip(s)) == Skip(s)
  {}

  lemma WordNone()
    ensures Word([]).None?
  {}

  lemma {:induction false} PlainRun(s: Bytes, i: nat, run: nat)
    requires i <= run <= |s| && forall k | i <= k < run :: s[k] != QUOTE && s[k] != BACKSLASH
    ensures var r := StringBody(s[run..]);
      StringBody(s[i..]) == if r.None? then None else Some((s[i..run] + r.value.0, r.value.1))
    decreases run - i
  {
    hide StringBody;
    var r := StringBody(s[run..]);
    if i == run {
      assert r.Some? ==> s[i..run] + r.value.0 == r.value.0;
    } else {
      PlainRun(s, i + 1, run);
      PlainByte(s, i);
      assert r.Some? ==> s[i..run] + r.value.0 == [s[i]] + (s[i + 1..run] + r.value.0);
    }
  }

  /** What has been read, followed by what is to come, is what was wanted. */
  predicate Agrees<T(==)>(want: Option<(seq<T>, Bytes)>, out: seq<T>, cur: Option<(seq<T>, Bytes)>) {
    && (want.Some? <==> cur.Some?)
    && (want.Some? ==> want.value == (out + cur.value.0, cur.value.1))
  }

  lemma AgreesStart<T>(want: Option<(seq<T>, Bytes)>)
    ensures Agrees(want, [], want)
  {
    assert want.Some? ==> [] + want.value.0 == want.value.0;
  }

  lemma AgreesStep<T>(want: Option<(seq<T>, Bytes)>, out: seq<T>, piece: seq<T>, cur: Option<(seq<T>, Bytes)>, next: Option<(seq<T>, Bytes)>)
    requires Agrees(want, out, cur) && cur == if next.None? then None else Some((piece + next.value.0, next.value.1))
    ensures Agrees(want, out + piece, next)
  {
    assert next.Some? ==> out + (piece + next.value.0) == (out + piece) + next.value.0;
  }

  /** The loop over a list's items, read off its recursive definition. */
  lemma ItemsStep(t: Text, s: Bytes)
    ensures Value(t, s).None? ==> Items(t, s).None?
    ensures Value(t, s).Some? ==>
      var (v, rest) := Value(t, s).value; var after := Skip(rest); var close, comma := Eat(after, [CLOSE_ARRAY]), Eat(after, [COMMA]);
      && (close.Some? ==> Items(t, s) == Some(([v], close.value)))
      && (close.None? && comma.None? ==> Items(t, s).None?)
      && (close.None? && comma.Some? ==>
            var next := Items(t, Skip(comma.value));
            Items(t, s) == if next.None? then None else Some(([v] + next.value.0, next.value.1)))
  {
    hide Value, Skip, Eat;
  }

  lemma MembersStep(t: Text, s: Bytes)
    ensures Member(t, s).None? ==> Members(t, s).None?
    ensures Member(t, s).Some? ==>
      var (e, rest) := Member(t, s).value; var after := Skip(rest); var close, comma := Eat(after, [CLOSE_OBJECT]), Eat(after, [COMMA]);
      && (close.Some? ==> Members(t, s) == Some(([e], close.value)))
      && (close.None? && comma.None? ==> Members(t, s).None?)
      && (close.None? && comma.Some? ==>
            var next := Members(t, Skip(comma.value));
            Members(t, s) == if next.None? then None else Some(([e] + next.value.0, next.value.1)))
  {
    hide Member, Skip, Eat;
  }

  lemma HexNeeds(s: Bytes)
    requires Hex4(s).Some?
    ensures |s| >= 4
  {}

  lemma PlainByte(s: Bytes, i: nat)
    requires i < |s| && s[i] != QUOTE && s[i] != BACKSLASH
    ensures var r := StringBody(s[i + 1..]);
      StringBody(s[i..]) == if r.None? then None else Some(([s[i]] + r.value.0, r.value.1))
  {
    hide Escape;
    assert s[i..][1..] == s[i + 1..];
  }

  lemma StringStops(s: Bytes, i: nat)
    requires i <= |s|
    ensures i == |s| ==> StringBody(s[i..]).None?
    ensures i < |s| && s[i] == QUOTE ==> StringBody(s[i..]) == Some(([], s[i + 1..]))
    ensures i < |s| && s[i] == BACKSLASH ==>
      var e := Escape(s[i + 1..]);
      && (e.None? ==> StringBody(s[i..]).None?)
      && (e.Some? ==>
            var r := StringBody(e.value.1);
            StringBody(s[i..]) == if r.None? then None else Some((e.value.0 + r.value.0, r.value.1)))
  {
    hide Escape;
    if i < |s| {
      assert s[i..][1..] == s[i + 1..];
    }
  }
}
