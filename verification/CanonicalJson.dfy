/** The deterministic JSON writer used by the audit chain: keys sorted, separators `,` and `:`
    without blanks, every character outside printable ASCII escaped. `Decode` is a reader written
    from RFC 8259; `RoundTrip` says the written text determines the value. */
module CanonicalJson {
  import opened Digits
  import opened Options

  /** A payload value. Objects are maps, so two objects that differ only in key order are equal. */
  datatype Json =
    | Null
    | Bool(b: bool)
    | Int(i: int)
    | Str(s: string)
    | Arr(items: seq<Json>)
    | Obj(fields: map<string, Json>)

  // ----- Strings -------------------------------------------------------------------------

  function HexDigit(n: nat): (c: char)
    requires n < 16
    ensures ' ' <= c <= '~'
  {
    "0123456789abcdef"[n]
  }

  function HexValue(c: char): Option<nat> {
    if '0' <= c <= '9' then Some(c as int - '0' as int)
    else if 'a' <= c <= 'f' then Some(c as int - 'a' as int + 10)
    else if 'A' <= c <= 'F' then Some(c as int - 'A' as int + 10)
    else None
  }

  function Hex4(n: nat): string
    requires n < 0x10000
  {
    [HexDigit(n / 4096), HexDigit(n / 256 % 16), HexDigit(n / 16 % 16), HexDigit(n % 16)]
  }

  function ParseHex4(s: string): (r: Option<nat>)
    ensures r.Some? ==> |s| >= 4 && r.value < 0x10000
  {
    if |s| < 4 then None
    else
      match (HexValue(s[0]), HexValue(s[1]), HexValue(s[2]), HexValue(s[3]))
      case (Some(a), Some(b), Some(c), Some(d)) =>
        if a < 16 && b < 16 && c < 16 && d < 16 then Some(a * 4096 + b * 256 + c * 16 + d) else None
      case _ => None
  }

  /** One character of a string literal, with only ASCII in the output. */
  function EscapeChar(c: char): (e: string)
    ensures |e| > 0 && e[0] != '"'
  {
    if c == '"' then "\\\""
    else if c == '\\' then "\\\\"
    else if c == '\n' then "\\n"
    else if c == '\r' then "\\r"
    else if c == '\t' then "\\t"
    else if c as int == 8 then "\\b"
    else if c as int == 12 then "\\f"
    else if ' ' <= c <= '~' then [c]
    else if c as int < 0x10000 then "\\u" + Hex4(c as int)
    else
      var v := c as int - 0x10000;
      "\\u" + Hex4(0xD800 + v / 1024) + "\\u" + Hex4(0xDC00 + v % 1024)
  }

  function EscapeAll(s: string): string {
    if s == "" then "" else EscapeChar(s[0]) + EscapeAll(s[1..])
  }

  function EncodeString(s: string): string {
    "\"" + EscapeAll(s) + "\""
  }

  function IntToChar(n: nat): Option<char> {
    if n < 0xD800 || 0xE000 <= n < 0x110000 then Some(n as char) else None
  }

  /** One character or escape sequence of a string literal (section 7 of RFC 8259). */
  function DecodeChar(s: string): (r: Option<(char, string)>)
    ensures r.Some? ==> |r.value.1| < |s|
  {
    if s == "" || s[0] == '"' || s[0] < ' ' then None
    else if s[0] != '\\' then Some((s[0], s[1..]))
    else if |s| == 1 then None
    else if s[1] in "\"\\/" then Some((s[1], s[2..]))
    else if s[1] == 'n' then Some(('\n', s[2..]))
    else if s[1] == 'r' then Some(('\r', s[2..]))
    else if s[1] == 't' then Some(('\t', s[2..]))
    else if s[1] == 'b' then Some((8 as char, s[2..]))
    else if s[1] == 'f' then Some((12 as char, s[2..]))
    else if s[1] != 'u' then None
    else DecodeUnicode(s)
  }

  function CombineSurrogates(hi: nat, lo: nat): char
    requires 0xD800 <= hi < 0xDC00 <= lo < 0xE000
  {
    (0x10000 + (hi - 0xD800) * 1024 + (lo - 0xDC00)) as char
  }

  function DecodeUnicode(s: string): (r: Option<(char, string)>)
    requires |s| >= 2
    ensures r.Some? ==> |r.value.1| < |s|
  {
    match ParseHex4(s[2..])
    case None => None
    case Some(u) =>
      if 0xD800 <= u < 0xDC00 then
        if |s| >= 12 && s[6] == '\\' && s[7] == 'u' then
          match ParseHex4(s[8..])
          case None => None
          case Some(l) =>
            if 0xDC00 <= l < 0xE000 then Some((CombineSurrogates(u, l), s[12..])) else None
        else None
      else
        match IntToChar(u)
        case None => None
        case Some(c) => Some((c, s[6..]))
  }

  /** The rest of a string literal, up to its closing quote. */
  function DecodeChars(s: string): (r: Option<(string, string)>)
    ensures r.Some? ==> |r.value.1| < |s|
    decreases |s|
  {
    if s == "" then None
    else if s[0] == '"' then Some(("", s[1..]))
    else
      match DecodeChar(s)
      case None => None
      case Some((c, rest)) =>
        match DecodeChars(rest)
        case None => None
        case Some((cs, rest')) => Some(([c] + cs, rest'))
  }

  lemma HexDigitValue(n: nat)
    requires n < 16
    ensures HexValue(HexDigit(n)) == Some(n)
  {
  }

  lemma HexDigits(n: nat)
    requires n < 0x10000
    ensures n / 4096 < 16
    ensures (n / 4096) * 4096 + (n / 256 % 16) * 256 + (n / 16 % 16) * 16 + n % 16 == n
  {
    assert n / 256 == n / 16 / 16;
    assert n / 4096 == n / 256 / 16;
  }

  lemma Hex4RoundTrip(n: nat, r: string)
    requires n < 0x10000
    ensures ParseHex4(Hex4(n) + r) == Some(n)
  {
    var a, b, c, d := n / 4096, n / 256 % 16, n / 16 % 16, n % 16;
    HexDigits(n);
    HexDigitValue(a);
    HexDigitValue(b);
    HexDigitValue(c);
    HexDigitValue(d);
    ParseHex4Digits(HexDigit(a), HexDigit(b), HexDigit(c), HexDigit(d), a, b, c, d, r);
  }

  lemma ParseHex4Digits(x: char, y: char, z: char, w: char, a: nat, b: nat, c: nat, d: nat, r: string)
    requires a < 16 && b < 16 && c < 16 && d < 16
    requires HexValue(x) == Some(a) && HexValue(y) == Some(b) && HexValue(z) == Some(c) && HexValue(w) == Some(d)
    ensures ParseHex4([x, y, z, w] + r) == Some(a * 4096 + b * 256 + c * 16 + d)
  {
  }

  lemma ReadUnicode(c: char, h: string, r: string)
    requires c as int < 0x10000 && |h| == 4 && ParseHex4(h + r) == Some(c as int)
    ensures DecodeChar("\\u" + h + r) == Some((c, r))
  {
    var t := "\\u" + h + r;
    assert t[2..] == h + r && t[6..] == r;
  }

  /** Every escape sequence reads back as the character it was written for. */
  lemma CharRoundTrip(c: char, r: string)
    ensures DecodeChar(EscapeChar(c) + r) == Some((c, r))
  {
    var n := c as int;
    var e := EscapeChar(c);
    var t := e + r;
    if ' ' <= c <= '~' && c != '"' && c != '\\' {
      assert t[1..] == r;
    } else if c == '"' || c == '\\' || c == '\n' || c == '\r' || c == '\t' || n == 8 || n == 12 {
      assert |e| == 2 && t[2..] == r;
      assert t[0] == e[0] && t[1] == e[1];
    } else if n < 0x10000 {
      Hex4RoundTrip(n, r);
      ReadUnicode(c, Hex4(n), r);
    } else {
      AstralRoundTrip(c, r);
    }
  }

  lemma SurrogatePair(c: char)
    requires c as int >= 0x10000
    ensures var v := c as int - 0x10000;
            v / 1024 < 0x400 && v % 1024 < 0x400
            && CombineSurrogates(0xD800 + v / 1024, 0xDC00 + v % 1024) == c
  {
  }

  /** Beyond the basic plane a character is written as a surrogate pair. */
  lemma AstralRoundTrip(c: char, r: string)
    requires c as int >= 0x10000
    ensures DecodeChar(EscapeChar(c) + r) == Some((c, r))
  {
    var v := c as int - 0x10000;
    SurrogatePair(c);
    var hi, lo := 0xD800 + v / 1024, 0xDC00 + v % 1024;
    SurrogatesRoundTrip(hi, lo, Hex4(hi), Hex4(lo), r);
  }

  lemma SurrogatesRoundTrip(hi: nat, lo: nat, h: string, l: string, r: string)
    requires 0xD800 <= hi < 0xDC00 <= lo < 0xE000 && h == Hex4(hi) && l == Hex4(lo)
    ensures DecodeChar("\\u" + h + "\\u" + l + r) == Some((CombineSurrogates(hi, lo), r))
  {
    var t := "\\u" + h + "\\u" + l + r;
    Hex4RoundTrip(hi, "\\u" + l + r);
    Hex4RoundTrip(lo, r);
    Slices(h, l, r);
    DecodePair(t, hi, lo);
  }

  lemma Slices(h: string, l: string, r: string)
    requires |h| == 4 && |l| == 4
    ensures var t := "\\u" + h + "\\u" + l + r;
            t[0] == '\\' && t[1] == 'u' && t[6] == '\\' && t[7] == 'u'
            && t[2..] == h + ("\\u" + l + r) && t[8..] == l + r && t[12..] == r
  {
  }

  lemma DecodePair(t: string, hi: nat, lo: nat)
    requires |t| >= 12 && 0xD800 <= hi < 0xDC00 <= lo < 0xE000
    requires t[0] == '\\' && t[1] == 'u' && t[6] == '\\' && t[7] == 'u'
    requires ParseHex4(t[2..]) == Some(hi) && ParseHex4(t[8..]) == Some(lo)
    ensures DecodeChar(t) == Some((CombineSurrogates(hi, lo), t[12..]))
  {
  }

  lemma {:induction false} CharsRoundTrip(s: string, r: string)
    ensures DecodeChars(EscapeAll(s) + "\"" + r) == Some((s, r))
    decreases |s|
  {
    var t := EscapeAll(s) + "\"" + r;
    if s == "" {
      assert t == "\"" + r && t[1..] == r;
    } else {
      var e := EscapeChar(s[0]);
      var tail := EscapeAll(s[1..]) + "\"" + r;
      assert t == e + tail;
      CharRoundTrip(s[0], tail);
      CharsRoundTrip(s[1..], r);
      ReadChar(e, s[0], tail, s[1..], r);
      assert [s[0]] + s[1..] == s;
    }
  }

  lemma ReadChar(e: string, c: char, tail: string, cs: string, r: string)
    requires e != "" && e[0] != '"' && DecodeChar(e + tail) == Some((c, tail)) && DecodeChars(tail) == Some((cs, r))
    ensures DecodeChars(e + tail) == Some(([c] + cs, r))
  {
    assert (e + tail)[0] == e[0];
  }

  // ----- Integers ------------------------------------------------------------------------

  function EncodeInt(i: int): string {
    if i < 0 then "-" + Decimal(-i) else Decimal(i)
  }

  /** Digits without a leading zero (section 6 of RFC 8259). */
  function DecodeNat(s: string): (r: Option<(nat, string)>)
    ensures r.Some? ==> |r.value.1| < |s|
  {
    var n := DigitRun(s);
    if n == 0 || (n > 1 && s[0] == '0') then None else Some((DigitsValue(s[..n]), s[n..]))
  }

  lemma NatRoundTrip(n: nat, r: string)
    requires Ends(r)
    ensures DecodeNat(Decimal(n) + r) == Some((n, r))
  {
    var d := Decimal(n);
    DigitRunExact(d, r);
    DecimalValue(n);
    NoLeadingZero(n);
    assert (d + r)[0] == d[0];
    assert (d + r)[..|d|] == d && (d + r)[|d|..] == r;
  }

  /** A sign is written for negative numbers only. */
  lemma SignMeansNegative(i: int)
    ensures EncodeInt(i) != "" && (EncodeInt(i)[0] == '-' <==> i < 0)
  {
    assert IsDigit(Decimal(if i < 0 then -i else i)[0]);
  }

  // ----- Sorted keys ---------------------------------------------------------------------

  /** Code-point order, the order Python sorts strings in. */
  predicate Less(a: string, b: string) {
    b != "" && (a == "" || a[0] < b[0] || (a[0] == b[0] && Less(a[1..], b[1..])))
  }

  /** `a` is a proper prefix of `b`, or has the smaller code point where they first differ. */
  ghost predicate Before(a: string, b: string) {
    exists k: nat :: k <= |a| && k < |b| && a[..k] == b[..k] && (k == |a| || a[k] < b[k])
  }

  lemma {:induction false} LessIsCodePointOrder(a: string, b: string)
    ensures Less(a, b) <==> Before(a, b)
  {
    if b != "" && a != "" && a[0] == b[0] {
      LessIsCodePointOrder(a[1..], b[1..]);
      if Before(a[1..], b[1..]) {
        var k: nat :| k <= |a[1..]| && k < |b[1..]| && a[1..][..k] == b[1..][..k] && (k == |a[1..]| || a[1..][k] < b[1..][k]);
        assert a[..k + 1] == [a[0]] + a[1..][..k] && b[..k + 1] == [b[0]] + b[1..][..k];
      }
      if Before(a, b) {
        var k: nat :| k <= |a| && k < |b| && a[..k] == b[..k] && (k == |a| || a[k] < b[k]);
        assert k > 0;
        assert a[1..][..k - 1] == a[..k][1..] && b[1..][..k - 1] == b[..k][1..];
        assert k - 1 <= |a[1..]| && k - 1 < |b[1..]|;
      }
    } else if b != "" && (a == "" || a[0] < b[0]) {
      assert a[..0] == b[..0];
    }
  }

  lemma {:induction false} LessTotal(a: string, b: string)
    ensures a == b || Less(a, b) || Less(b, a)
  {
    if a != "" && b != "" && a[0] == b[0] {
      LessTotal(a[1..], b[1..]);
      assert a == [a[0]] + a[1..] && b == [b[0]] + b[1..];
    }
  }

  lemma {:induction false} LessTransitive(a: string, b: string, c: string)
    requires Less(a, b) && Less(b, c)
    ensures Less(a, c)
  {
    if a != "" && a[0] == b[0] && b[0] == c[0] {
      LessTransitive(a[1..], b[1..], c[1..]);
    }
  }

  lemma {:induction false} LessAsymmetric(a: string, b: string)
    requires Less(a, b)
    ensures a != b && !Less(b, a)
  {
    if a != "" && a[0] == b[0] {
      LessAsymmetric(a[1..], b[1..]);
    }
  }

  predicate IsLeast(k: string, keys: set<string>) {
    k in keys && forall x :: x in keys ==> x == k || Less(k, x)
  }

  lemma {:induction false} LeastExists(keys: set<string>)
    requires keys != {}
    ensures exists k :: IsLeast(k, keys)
  {
    var x :| x in keys;
    var others := keys - {x};
    assert keys == others + {x};
    if others == {} {
      assert IsLeast(x, keys);
    } else {
      LeastExists(others);
      var m :| IsLeast(m, others);
      LessTotal(x, m);
      if Less(x, m) {
        forall y | y in keys && y != x && y != m ensures Less(x, y) {
          LessTransitive(x, m, y);
        }
        assert IsLeast(x, keys);
      } else {
        assert IsLeast(m, keys);
      }
    }
  }

  lemma LeastUnique(keys: set<string>)
    ensures forall k, m :: IsLeast(k, keys) && IsLeast(m, keys) ==> k == m
  {
    forall k, m | IsLeast(k, keys) && IsLeast(m, keys) ensures k == m {
      if k != m { LessAsymmetric(k, m); }
    }
  }

  function LeastKey(keys: set<string>): (k: string)
    requires keys != {}
    ensures IsLeast(k, keys)
  {
    LeastExists(keys);
    LeastUnique(keys);
    var k :| k in keys && IsLeast(k, keys);
    k
  }

  ghost predicate StrictlySorted(ks: seq<string>) {
    forall i, j :: 0 <= i < j < |ks| ==> Less(ks[i], ks[j])
  }

  function SortedKeys(keys: set<string>): (ks: seq<string>)
    ensures forall x :: x in keys <==> x in ks
  {
    if keys == {} then []
    else
      var k := LeastKey(keys);
      [k] + SortedKeys(keys - {k})
  }

  /** `sort_keys`: the members are written in strictly increasing key order, each key once. */
  lemma {:induction false} KeysAreSorted(keys: set<string>)
    ensures StrictlySorted(SortedKeys(keys))
  {
    if keys != {} {
      KeysAreSorted(keys - {LeastKey(keys)});
    }
  }

  // ----- Values --------------------------------------------------------------------------

  function Encode(v: Json): (s: string)
    decreases v
  {
    match v
    case Null => "null"
    case Bool(b) => if b then "true" else "false"
    case Int(i) => EncodeInt(i)
    case Str(t) => EncodeString(t)
    case Arr(items) => if items == [] then "[]" else "[" + EncodeItems(v, 0) + "]"
    case Obj(fields) =>
      var ks := SortedKeys(fields.Keys);
      if ks == [] then "{}" else "{" + EncodeFields(v, ks) + "}"
  }

  /** The items of the array `v` from index `k` on, separated by commas. */
  function EncodeItems(v: Json, k: nat): (s: string)
    requires v.Arr? && k < |v.items|
    ensures Encode(v.items[k]) <= s
    decreases v, |v.items| - k
  {
    Encode(v.items[k]) + (if k + 1 == |v.items| then "" else "," + EncodeItems(v, k + 1))
  }

  /** The members of the object `v` under the keys `ks`, in that order. */
  function EncodeFields(v: Json, ks: seq<string>): (s: string)
    requires v.Obj? && ks != [] && forall k :: k in ks ==> k in v.fields
    ensures s != "" && s[0] == '"'
    decreases v, |ks|
  {
    EncodeString(ks[0]) + ":" + Encode(v.fields[ks[0]])
    + (if |ks| == 1 then "" else "," + EncodeFields(v, ks[1..]))
  }

  function Skip(s: string, prefix: string): (r: Option<string>)
    ensures r.Some? ==> s == prefix + r.value
  {
    if |prefix| <= |s| && s[..|prefix|] == prefix then Some(s[|prefix|..]) else None
  }

  /** Reads one value from the front of `s` and returns it with the text behind it. */
  function DecodeValue(s: string): (r: Option<(Json, string)>)
    ensures r.Some? ==> |r.value.1| < |s|
    decreases |s|, 0
  {
    if s == "" then None
    else if s[0] == '"' then
      match DecodeChars(s[1..])
      case None => None
      case Some((t, rest)) => Some((Str(t), rest))
    else if IsDigit(s[0]) then
      match DecodeNat(s)
      case None => None
      case Some((n, rest)) => Some((Int(n), rest))
    else if s[0] == '-' then
      match DecodeNat(s[1..])
      case None => None
      case Some((n, rest)) =>
        var i := -(n as int);
        Some((Int(i), rest))
    else if s[0] == '[' then
      if |s| >= 2 && s[1] == ']' then Some((Arr([]), s[2..]))
      else
        match DecodeItems(s[1..])
        case None => None
        case Some((vs, rest)) => Some((Arr(vs), rest))
    else if s[0] == '{' then
      if |s| >= 2 && s[1] == '}' then Some((Obj(map[]), s[2..]))
      else
        match DecodeFields(s[1..])
        case None => None
        case Some((m, rest)) => Some((Obj(m), rest))
    else if Skip(s, "null").Some? then Some((Null, s[4..]))
    else if Skip(s, "true").Some? then Some((Bool(true), s[4..]))
    else if Skip(s, "false").Some? then Some((Bool(false), s[5..]))
    else None
  }

  function DecodeItems(s: string): (r: Option<(seq<Json>, string)>)
    ensures r.Some? ==> |r.value.1| < |s|
    decreases |s|, 1
  {
    match DecodeValue(s)
    case None => None
    case Some((v, rest)) =>
      if rest == "" then None
      else if rest[0] == ']' then Some(([v], rest[1..]))
      else if rest[0] == ',' then
        match DecodeItems(rest[1..])
        case None => None
        case Some((vs, rest')) => Some(([v] + vs, rest'))
      else None
  }

  function DecodeFields(s: string): (r: Option<(map<string, Json>, string)>)
    ensures r.Some? ==> |r.value.1| < |s|
    decreases |s|, 1
  {
    if s == "" || s[0] != '"' then None
    else
      match DecodeChars(s[1..])
      case None => None
      case Some((k, afterKey)) =>
        if afterKey == "" || afterKey[0] != ':' then None
        else
          match DecodeValue(afterKey[1..])
          case None => None
          case Some((v, rest)) =>
            if rest == "" then None
            else if rest[0] == '}' then Some((map[k := v], rest[1..]))
            else if rest[0] == ',' then
              match DecodeFields(rest[1..])
              case None => None
              case Some((m, rest')) => Some((map[k := v] + m, rest'))
            else None
  }

  lemma Enclosed(open: string, d: string, close: string, r: string)
    ensures (open + d + close) + r == open + (d + (close + r))
  {
  }

  lemma Follows(e: string, comma: string, more: string, r: string)
    requires |comma| == 1
    ensures (e + (comma + more)) + r == e + (comma + (more + r))
    ensures (e + "") + r == e + r
    ensures (comma + (more + r))[0] == comma[0] && (comma + (more + r))[1..] == more + r
  {
    assert (e + (comma + more)) + r == e + (comma + (more + r));
  }

  lemma IntRoundTrip(i: int, r: string)
    requires Ends(r)
    ensures DecodeValue(EncodeInt(i) + r) == Some((Int(i), r))
  {
    var n := if i < 0 then -i else i;
    var d := Decimal(n) + r;
    NatRoundTrip(n, r);
    assert d[0] == Decimal(n)[0];
    if i < 0 {
      assert EncodeInt(i) + r == "-" + d;
      ReadNegative(d, i, r);
    } else {
      ReadNat(d, n, r);
    }
  }

  lemma ReadNat(d: string, n: nat, r: string)
    requires d != "" && IsDigit(d[0]) && DecodeNat(d) == Some((n, r))
    ensures DecodeValue(d) == Some((Int(n), r))
  {
  }

  lemma ReadNegative(d: string, i: int, r: string)
    requires i <= 0 && DecodeNat(d) == Some((-i, r))
    ensures DecodeValue("-" + d) == Some((Int(i), r))
  {
    assert ("-" + d)[1..] == d;
  }

  lemma ReadString(t: string, k: string, r: string)
    requires t != "" && t[0] == '"' && DecodeChars(t[1..]) == Some((k, r))
    ensures DecodeValue(t) == Some((Str(k), r))
  {
  }

  lemma ReadArray(d: string, vs: seq<Json>, r: string)
    requires d != "" && d[0] != ']' && DecodeItems(d) == Some((vs, r))
    ensures DecodeValue("[" + d) == Some((Arr(vs), r))
  {
    assert ("[" + d)[1..] == d;
  }

  lemma ReadLastItem(e: string, v: Json, r: string)
    requires DecodeValue(e + ("]" + r)) == Some((v, "]" + r))
    ensures DecodeItems(e + ("]" + r)) == Some(([v], r))
  {
    assert ("]" + r)[1..] == r;
  }

  lemma ReadItem(e: string, v: Json, more: string, vs: seq<Json>, r: string)
    requires DecodeValue(e + ("," + more)) == Some((v, "," + more))
    requires DecodeItems(more) == Some((vs, r))
    ensures DecodeItems(e + ("," + more)) == Some(([v] + vs, r))
  {
    assert ("," + more)[1..] == more;
  }

  lemma ReadObject(d: string, m: map<string, Json>, r: string)
    requires d != "" && d[0] == '"' && DecodeFields(d) == Some((m, r))
    ensures DecodeValue("{" + d) == Some((Obj(m), r))
  {
    assert ("{" + d)[1..] == d;
  }

  lemma ReadEmptyArray(r: string)
    ensures DecodeValue("[]" + r) == Some((Arr([]), r))
  {
    assert ("[]" + r)[2..] == r;
  }

  lemma ReadEmptyObject(r: string)
    ensures DecodeValue("{}" + r) == Some((Obj(map[]), r))
  {
    assert ("{}" + r)[2..] == r;
  }

  lemma ReadMember(d: string, k: string, afterKey: string, v: Json, rest: string)
    requires d != "" && d[0] == '"' && DecodeChars(d[1..]) == Some((k, ":" + afterKey))
    requires DecodeValue(afterKey) == Some((v, rest)) && rest != ""
    ensures rest[0] == '}' ==> DecodeFields(d) == Some((map[k := v], rest[1..]))
    ensures rest[0] == ',' && DecodeFields(rest[1..]).Some? ==>
      var (m, rest') := DecodeFields(rest[1..]).value;
      DecodeFields(d) == Some((map[k := v] + m, rest'))
  {
    assert (":" + afterKey)[1..] == afterKey;
  }

  lemma Quoted(s: string, r: string)
    ensures ("\"" + s + "\"" + r)[0] == '"' && ("\"" + s + "\"" + r)[1..] == s + "\"" + r
  {
  }

  lemma Uncons<T>(s: seq<T>, k: nat)
    requires k < |s|
    ensures s[k..] == [s[k]] + s[k + 1..]
    ensures k + 1 == |s| ==> s[k..] == [s[k]]
  {
  }

  lemma StringRoundTrip(k: string, r: string)
    ensures (EncodeString(k) + r)[0] == '"'
    ensures DecodeChars((EncodeString(k) + r)[1..]) == Some((k, r))
  {
    CharsRoundTrip(k, r);
    Quoted(EscapeAll(k), r);
  }

  lemma FirstChar(v: Json)
    ensures Encode(v) != "" && Encode(v)[0] != ']'
  {
    if v.Int? {
      assert EncodeInt(v.i)[0] == '-' || IsDigit(EncodeInt(v.i)[0]);
    }
  }

  /** What was written for `v` reads back as `v`, whatever text follows it. */
  lemma {:induction false} ValueRoundTrip(v: Json, r: string)
    requires Ends(r)
    ensures DecodeValue(Encode(v) + r) == Some((v, r))
    decreases v
  {
    var t := Encode(v) + r;
    match v
    case Null => assert t[..4] == "null" && t[4..] == r;
    case Bool(b) =>
      if b {
        assert t[..4] == "true" && t[4..] == r;
      } else {
        assert t[..5] == "false" && t[5..] == r;
      }
    case Int(i) => IntRoundTrip(i, r);
    case Str(k) =>
      StringRoundTrip(k, r);
      ReadString(t, k, r);
    case Arr(_) => ArrayRoundTrip(v, r);
    case Obj(_) => ObjectRoundTrip(v, r);
  }

  lemma {:induction false} ArrayRoundTrip(v: Json, r: string)
    requires v.Arr?
    ensures DecodeValue(Encode(v) + r) == Some((v, r))
    decreases v, |v.items| + 1
  {
    if v.items == [] {
      ReadEmptyArray(r);
    } else {
      ItemsRoundTrip(v, 0, r);
      FirstChar(v.items[0]);
      var d := EncodeItems(v, 0);
      assert Encode(v) == "[" + d + "]";
      ReadArray(d + ("]" + r), v.items[0..], r);
      Enclosed("[", d, "]", r);
    }
  }

  lemma AllFields(m: map<string, Json>, ks: seq<string>)
    requires forall k :: k in m.Keys <==> k in ks
    ensures (map k | k in ks :: m[k]) == m
  {
  }

  lemma {:induction false} ObjectRoundTrip(v: Json, r: string)
    requires v.Obj?
    ensures DecodeValue(Encode(v) + r) == Some((v, r))
    decreases v, |SortedKeys(v.fields.Keys)| + 1
  {
    var ks := SortedKeys(v.fields.Keys);
    if ks == [] {
      ReadEmptyObject(r);
      assert v.fields == map[];
    } else {
      FieldsRoundTrip(v, ks, r);
      var d := EncodeFields(v, ks);
      assert Encode(v) == "{" + d + "}";
      ReadObject(d + ("}" + r), map k | k in ks :: v.fields[k], r);
      AllFields(v.fields, ks);
      Enclosed("{", d, "}", r);
    }
  }

  lemma {:induction false} ItemsRoundTrip(v: Json, k: nat, r: string)
    requires v.Arr? && k < |v.items|
    ensures DecodeItems(EncodeItems(v, k) + ("]" + r)) == Some((v.items[k..], r))
    decreases v, |v.items| - k
  {
    var last := k + 1 == |v.items|;
    var more := if last then "" else EncodeItems(v, k + 1);
    var behind := if last then "]" + r else "," + (more + ("]" + r));
    Follows(Encode(v.items[k]), ",", more, "]" + r);
    ValueRoundTrip(v.items[k], behind);
    Uncons(v.items, k);
    if last {
      ReadLastItem(Encode(v.items[k]), v.items[k], r);
    } else {
      ItemsRoundTrip(v, k + 1, r);
      ReadItem(Encode(v.items[k]), v.items[k], more + ("]" + r), v.items[k + 1..], r);
    }
  }

  lemma {:induction false} FieldsRoundTrip(v: Json, ks: seq<string>, r: string)
    requires v.Obj? && ks != [] && forall k :: k in ks ==> k in v.fields
    ensures DecodeFields(EncodeFields(v, ks) + ("}" + r)) == Some((map k | k in ks :: v.fields[k], r))
    decreases v, |ks|
  {
    var k := ks[0];
    var last := |ks| == 1;
    var more := if last then "" else EncodeFields(v, ks[1..]);
    var behind := if last then "}" + r else "," + (more + ("}" + r));
    var value := Encode(v.fields[k]);
    MemberText(EncodeString(k), value, if last then "" else "," + more, "}" + r);
    Follows(value, ",", more, "}" + r);
    StringRoundTrip(k, ":" + (value + behind));
    ValueRoundTrip(v.fields[k], behind);
    ReadMember(EncodeString(k) + (":" + (value + behind)), k, value + behind, v.fields[k], behind);
    if !last {
      FieldsRoundTrip(v, ks[1..], r);
    }
    FieldsMap(v.fields, ks);
  }

  lemma MemberText(key: string, value: string, more: string, r: string)
    ensures (key + ":" + value + more) + r == key + (":" + ((value + more) + r))
  {
  }

  /** The members of an object, one after the other, make up the object. */
  lemma FieldsMap(m: map<string, Json>, ks: seq<string>)
    requires ks != [] && forall k :: k in ks ==> k in m
    ensures |ks| == 1 ==> (map k | k in ks :: m[k]) == map[ks[0] := m[ks[0]]]
    ensures (map k | k in ks :: m[k]) == map[ks[0] := m[ks[0]]] + (map k | k in ks[1..] :: m[k])
  {
    assert ks == [ks[0]] + ks[1..];
  }

  /** A whole text: one value and nothing behind it. */
  function Decode(s: string): Option<Json> {
    match DecodeValue(s)
    case Some((v, "")) => Some(v)
    case _ => None
  }

  lemma RoundTrip(v: Json)
    ensures Decode(Encode(v)) == Some(v)
  {
    ValueRoundTrip(v, "");
    assert Encode(v) + "" == Encode(v);
  }

  // ----- Key order in the text -----------------------------------------------------------

  /** The keys of the members in the order in which they stand in the text. */
  function ReadKeys(s: string): (ks: Option<seq<string>>)
    decreases |s|
  {
    if s == "" || s[0] != '"' then None
    else
      match DecodeChars(s[1..])
      case None => None
      case Some((k, afterKey)) =>
        if afterKey == "" || afterKey[0] != ':' then None
        else
          match DecodeValue(afterKey[1..])
          case None => None
          case Some((_, rest)) =>
            if rest == "" then None
            else if rest[0] == '}' then Some([k])
            else if rest[0] == ',' then
              match ReadKeys(rest[1..]) case None => None case Some(ks) => Some([k] + ks)
            else None
  }

  lemma ReadKey(d: string, k: string, afterKey: string, v: Json, rest: string)
    requires d != "" && d[0] == '"' && DecodeChars(d[1..]) == Some((k, ":" + afterKey))
    requires DecodeValue(afterKey) == Some((v, rest)) && rest != ""
    ensures rest[0] == '}' ==> ReadKeys(d) == Some([k])
    ensures rest[0] == ',' && ReadKeys(rest[1..]).Some? ==> ReadKeys(d) == Some([k] + ReadKeys(rest[1..]).value)
  {
    assert (":" + afterKey)[1..] == afterKey;
  }

  lemma {:induction false} KeysInText(v: Json, ks: seq<string>, r: string)
    requires v.Obj? && ks != [] && forall k :: k in ks ==> k in v.fields
    ensures ReadKeys(EncodeFields(v, ks) + ("}" + r)) == Some(ks)
    decreases |ks|
  {
    var k := ks[0];
    var last := |ks| == 1;
    var more := if last then "" else EncodeFields(v, ks[1..]);
    var behind := if last then "}" + r else "," + (more + ("}" + r));
    var value := Encode(v.fields[k]);
    MemberText(EncodeString(k), value, if last then "" else "," + more, "}" + r);
    Follows(value, ",", more, "}" + r);
    StringRoundTrip(k, ":" + (value + behind));
    ValueRoundTrip(v.fields[k], behind);
    ReadKey(EncodeString(k) + (":" + (value + behind)), k, value + behind, v.fields[k], behind);
    if last {
      assert ks == [k];
    } else {
      KeysInText(v, ks[1..], r);
      assert behind[1..] == more + ("}" + r) && ks == [k] + ks[1..];
    }
  }

  /** The members of every object stand in the text in code-point order of their keys, each once. */
  lemma MembersAreSorted(m: map<string, Json>)
    requires m != map[]
    ensures Encode(Obj(m)) != ""
    ensures var keys := ReadKeys(Encode(Obj(m))[1..]);
            keys.Some? && (forall k :: k in keys.value <==> k in m)
            && forall i, j :: 0 <= i < j < |keys.value| ==> Before(keys.value[i], keys.value[j])
  {
    var ks := SortedKeys(m.Keys);
    var k :| k in m;
    assert k in ks;
    KeysAreSorted(m.Keys);
    KeysInText(Obj(m), ks, "");
    assert Encode(Obj(m))[1..] == EncodeFields(Obj(m), ks) + ("}" + "");
    forall i, j | 0 <= i < j < |ks| ensures Before(ks[i], ks[j]) {
      LessIsCodePointOrder(ks[i], ks[j]);
    }
  }

  // ----- Which characters are escaped ----------------------------------------------------

  predicate LowerHex(s: string) { forall k :: 0 <= k < |s| ==> '0' <= s[k] <= '9' || 'a' <= s[k] <= 'f' }

  lemma HexIsLower(n: nat)
    requires n < 0x10000
    ensures |Hex4(n)| == 4 && LowerHex(Hex4(n))
  {
    assert forall d: nat :: d < 16 ==> '0' <= HexDigit(d) <= '9' || 'a' <= HexDigit(d) <= 'f';
  }

  predicate ShortEscape(c: char) { c in {'"', '\\', '\n', '\r', '\t', 8 as char, 12 as char} }

  /** A printable ASCII character stands for itself, except the quote and the backslash; those and five
      control characters have two-character escapes. */
  lemma ShortText(c: char)
    ensures ' ' <= c <= '~' && !ShortEscape(c) ==> EscapeChar(c) == [c]
    ensures ShortEscape(c) ==> |EscapeChar(c)| == 2 && EscapeChar(c)[0] == '\\'
  {
  }

  /** Every other character is written as one `\u` escape with lower-case hexadecimals, or as two behind
      U+FFFF. */
  lemma LongText(c: char)
    requires !(' ' <= c <= '~') && !ShortEscape(c)
    ensures if c as int < 0x10000 then OneUnicode(EscapeChar(c)) else TwoUnicode(EscapeChar(c))
  {
    if c as int < 0x10000 {
      BmpText(c);
    } else {
      AstralText(c);
    }
  }

  predicate OneUnicode(e: string) { |e| == 6 && e[..2] == "\\u" && LowerHex(e[2..]) }

  predicate TwoUnicode(e: string) { |e| == 12 && OneUnicode(e[..6]) && OneUnicode(e[6..]) }

  lemma BmpText(c: char)
    requires c < ' ' || '~' < c
    requires !ShortEscape(c) && c as int < 0x10000
    ensures OneUnicode(EscapeChar(c))
  {
    HexIsLower(c as int);
    OneEscape(Hex4(c as int));
  }

  lemma AstralText(c: char)
    requires c as int >= 0x10000
    ensures TwoUnicode(EscapeChar(c))
  {
    var v := c as int - 0x10000;
    SurrogatePair(c);
    HexIsLower(0xD800 + v / 1024);
    HexIsLower(0xDC00 + v % 1024);
    TwoEscapes(Hex4(0xD800 + v / 1024), Hex4(0xDC00 + v % 1024));
  }

  lemma OneEscape(h: string)
    requires |h| == 4 && LowerHex(h)
    ensures OneUnicode("\\u" + h)
  {
    assert ("\\u" + h)[2..] == h;
  }

  lemma TwoEscapes(h: string, l: string)
    requires |h| == 4 && |l| == 4 && LowerHex(h) && LowerHex(l)
    ensures TwoUnicode("\\u" + h + "\\u" + l)
  {
    var e := "\\u" + h + "\\u" + l;
    OneEscape(h);
    OneEscape(l);
    assert e[..6] == "\\u" + h && e[6..] == "\\u" + l;
  }

  /** The text determines the value: no two payloads share a canonical form. */
  lemma EncodeInjective(v: Json, w: Json)
    ensures Encode(v) == Encode(w) <==> v == w
  {
    RoundTrip(v);
    RoundTrip(w);
  }

  /** Only printable ASCII is written, so the UTF-8 bytes that are hashed are these characters. */
  predicate Printable(s: string) {
    forall k :: 0 <= k < |s| ==> ' ' <= s[k] <= '~'
  }

  lemma EscapeCharPrintable(c: char)
    ensures Printable(EscapeChar(c))
  {
  }

  lemma {:induction false} EscapeAllPrintable(s: string)
    ensures Printable(EscapeAll(s))
  {
    if s == "" {
    } else {
      EscapeCharPrintable(s[0]);
      EscapeAllPrintable(s[1..]);
    }
  }

  lemma AtomPrintable(v: Json)
    requires !v.Arr? && !v.Obj?
    ensures Printable(Encode(v))
  {
    if v.Str? { EscapeAllPrintable(v.s); }
  }

  lemma EnclosedPrintable(before: string, s: string, after: string)
    requires Printable(before) && Printable(s) && Printable(after)
    ensures Printable(before + s + after)
  {
  }

  lemma {:induction false} EncodePrintable(v: Json)
    ensures Printable(Encode(v))
    decreases v
  {
    match v
    case Arr(items) =>
      if items != [] {
        ItemsPrintable(v, 0);
        EnclosedPrintable("[", EncodeItems(v, 0), "]");
      }
    case Obj(fields) =>
      var ks := SortedKeys(fields.Keys);
      if ks != [] {
        FieldsPrintable(v, ks);
        EnclosedPrintable("{", EncodeFields(v, ks), "}");
      }
    case _ => AtomPrintable(v);
  }

  lemma {:induction false} ItemsPrintable(v: Json, k: nat)
    requires v.Arr? && k < |v.items|
    ensures Printable(EncodeItems(v, k))
    decreases v, |v.items| - k
  {
    EncodePrintable(v.items[k]);
    if k + 1 < |v.items| { ItemsPrintable(v, k + 1); }
  }

  lemma {:induction false} FieldsPrintable(v: Json, ks: seq<string>)
    requires v.Obj? && ks != [] && forall k :: k in ks ==> k in v.fields
    ensures Printable(EncodeFields(v, ks))
    decreases v, |ks|
  {
    EscapeAllPrintable(ks[0]);
    EncodePrintable(v.fields[ks[0]]);
    EnclosedPrintable("\"", EscapeAll(ks[0]), "\"");
    EnclosedPrintable(EncodeString(ks[0]), ":", Encode(v.fields[ks[0]]));
    if |ks| > 1 {
      FieldsPrintable(v, ks[1..]);
      EnclosedPrintable(EncodeString(ks[0]) + ":" + Encode(v.fields[ks[0]]), ",", EncodeFields(v, ks[1..]));
      assert EncodeFields(v, ks) == EncodeString(ks[0]) + ":" + Encode(v.fields[ks[0]]) + ("," + EncodeFields(v, ks[1..]));
    }
  }
}
