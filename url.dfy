/**
 * The parts of Python's `urllib.parse` the login helper calls (`unquote`,
 * `unquote_plus`, `quote_plus` through `urlencode`, `parse_qsl`/`parse_qs`
 * and the query component of `urlsplit`), and the browser's
 * `encodeURIComponent`, which the callback page uses to send the fragment back.
 */
module Url {
  import opened Wrappers
  import opened Text

  predicate IsHexDigit(c: char) {
    '0' <= c <= '9' || 'a' <= c <= 'f' || 'A' <= c <= 'F'
  }

  function HexValue(c: char): (v: nat)
    requires IsHexDigit(c)
    ensures v < 16
  {
    if '0' <= c <= '9' then c as int - '0' as int
    else if 'a' <= c <= 'f' then c as int - 'a' as int + 10
    else c as int - 'A' as int + 10
  }

  /** Letters, digits and `_.-~`: what `quote` never escapes. */
  predicate IsUnreserved(c: char) {
    'A' <= c <= 'Z' || 'a' <= c <= 'z' || '0' <= c <= '9' || c == '_' || c == '.' || c == '-' || c == '~'
  }

  predicate AllUnreserved(s: string) {
    forall i :: 0 <= i < |s| ==> IsUnreserved(s[i])
  }

  /** The upper-case hexadecimal digit that `quote` writes. */
  function HexDigit(n: nat): (c: char)
    requires n < 16
    ensures IsHexDigit(c) && HexValue(c) == n
    ensures IsUnreserved(c)
  {
    if n < 10 then ('0' as int + n) as char else ('A' as int + n - 10) as char
  }

  /** The `%XX` escape of one byte. */
  function Escape(b: nat): (e: string)
    requires b < 256
    ensures |e| == 3 && e[0] == '%' && IsHexDigit(e[1]) && IsHexDigit(e[2])
    ensures 16 * HexValue(e[1]) + HexValue(e[2]) == b
    ensures forall x :: x in e ==> x == '%' || IsUnreserved(x)
  {
    ['%', HexDigit(b / 16), HexDigit(b % 16)]
  }

  /** The UTF-8 bytes of one character. */
  function Utf8(c: char): (bs: seq<nat>)
    ensures 1 <= |bs| <= 4
    ensures forall i :: 0 <= i < |bs| ==> bs[i] < 256
    ensures c as int < 128 ==> bs == [c as int]
  {
    var n := c as int;
    if n < 0x80 then [n]
    else if n < 0x800 then [0xC0 + n / 64, 0x80 + n % 64]
    else if n < 0x10000 then [0xE0 + n / 4096, 0x80 + (n / 64) % 64, 0x80 + n % 64]
    else [0xF0 + n / 262144, 0x80 + (n / 4096) % 64, 0x80 + (n / 64) % 64, 0x80 + n % 64]
  }

  function EscapeAll(bs: seq<nat>): (e: string)
    requires forall i :: 0 <= i < |bs| ==> bs[i] < 256
    ensures |e| == 3 * |bs|
    ensures forall x :: x in e ==> x == '%' || IsUnreserved(x)
    decreases |bs|
  {
    if |bs| == 0 then "" else Escape(bs[0]) + EscapeAll(bs[1..])
  }

  /**
   * `unquote` (plus = false) and `unquote_plus` (plus = true): each `%XX`
   * with two hexadecimal digits becomes the character with code XX,
   * `unquote_plus` also turns `+` into a space, and everything else,
   * including a `%` without two hexadecimal digits, is copied.
   */
  function Decode(s: string, plus: bool): (r: string)
    ensures |r| <= |s|
    ensures |s| > 0 ==> |r| > 0
    decreases |s|
  {
    if |s| == 0 then ""
    else if s[0] == '%' && |s| >= 3 && IsHexDigit(s[1]) && IsHexDigit(s[2]) then
      [(16 * HexValue(s[1]) + HexValue(s[2])) as char] + Decode(s[3..], plus)
    else if plus && s[0] == '+' then " " + Decode(s[1..], plus)
    else [s[0]] + Decode(s[1..], plus)
  }

  function Unquote(s: string): string {
    Decode(s, false)
  }

  function UnquotePlus(s: string): string {
    Decode(s, true)
  }

  /** Text without a `%` (and, for `unquote_plus`, without a `+`) is left alone. */
  lemma {:induction false} DecodeIdentity(s: string, plus: bool)
    requires '%' !in s && (plus ==> '+' !in s)
    ensures Decode(s, plus) == s
    decreases |s|
  {
    if |s| > 0 {
      assert '%' !in s[1..] && '+' !in s[1..] <== '+' !in s;
      DecodeIdentity(s[1..], plus);
    }
  }

  /** `quote_plus(c, safe='')` for one character. */
  function QuotePlusChar(c: char): string {
    if IsUnreserved(c) then [c] else if c == ' ' then "+" else EscapeAll(Utf8(c))
  }

  /** The concatenation of `parts`. */
  function Concat(parts: seq<string>): string
    decreases |parts|
  {
    if |parts| == 0 then "" else parts[0] + Concat(parts[1..])
  }

  /** `quote_plus(s, safe='')`, which `urlencode` applies to every key and value: each character quoted on its own. */
  function QuotePlus(s: string): string {
    Concat(seq(|s|, i requires 0 <= i < |s| => QuotePlusChar(s[i])))
  }

  lemma QuotePlusCons(s: string)
    requires |s| > 0
    ensures QuotePlus(s) == QuotePlusChar(s[0]) + QuotePlus(s[1..])
  {
    var parts := seq(|s|, i requires 0 <= i < |s| => QuotePlusChar(s[i]));
    assert parts[1..] == seq(|s| - 1, i requires 0 <= i < |s| - 1 => QuotePlusChar(s[1..][i]));
  }

  /** `quote_plus` writes only unreserved characters, `+` and `%`, and nothing only for nothing. */
  lemma {:induction false} QuotePlusAlphabet(s: string)
    ensures |QuotePlus(s)| == 0 <==> |s| == 0
    ensures forall x :: x in QuotePlus(s) ==> IsUnreserved(x) || x == '+' || x == '%'
    decreases |s|
  {
    if |s| > 0 {
      QuotePlusCons(s);
      QuotePlusAlphabet(s[1..]);
      var c := s[0];
      assert forall x :: x in EscapeAll(Utf8(c)) ==> IsUnreserved(x) || x == '%';
    }
  }

  /** What `encodeURIComponent` leaves unescaped. */
  predicate IsUriComponentSafe(c: char) {
    IsUnreserved(c) || c == '!' || c == '*' || c == '\'' || c == '(' || c == ')'
  }

  function EncodeUriComponentChar(c: char): string {
    if IsUriComponentSafe(c) then [c] else EscapeAll(Utf8(c))
  }

  /** The browser's `encodeURIComponent`. */
  function EncodeUriComponent(s: string): (r: string)
    ensures |r| == 0 <==> |s| == 0
    ensures forall x :: x in r ==> IsUriComponentSafe(x) || x == '%'
    decreases |s|
  {
    if |s| == 0 then "" else EncodeUriComponentChar(s[0]) + EncodeUriComponent(s[1..])
  }

  /** `e` is one encoded character that `unquote_plus` turns back into `c`. */
  predicate DecodesTo(e: string, c: char) {
    (e == [c] && c != '%' && c != '+')
    || (e == "+" && c == ' ')
    || (c as int < 128 && e == Escape(c as int))
  }

  lemma DecodeStep(e: string, rest: string, c: char)
    requires DecodesTo(e, c)
    ensures UnquotePlus(e + rest) == [c] + UnquotePlus(rest)
  {
    var s := e + rest;
    if e == [c] && c != '%' && c != '+' {
      assert s[0] == c && s[1..] == rest;
    } else if e == "+" && c == ' ' {
      assert s[0] == '+' && s[1..] == rest;
    } else {
      assert s[0] == '%' && s[1] == e[1] && s[2] == e[2] && s[3..] == rest;
      assert (16 * HexValue(s[1]) + HexValue(s[2])) as char == (c as int) as char;
    }
  }

  /** `unquote_plus` undoes `quote_plus` on ASCII text. */
  lemma {:induction false} QuotePlusRoundTrip(s: string)
    requires IsAscii(s)
    ensures UnquotePlus(QuotePlus(s)) == s
    decreases |s|
  {
    if |s| > 0 {
      var c := s[0];
      QuotePlusCons(s);
      assert EscapeAll([c as int]) == Escape(c as int);
      assert DecodesTo(QuotePlusChar(c), c);
      DecodeStep(QuotePlusChar(c), QuotePlus(s[1..]), c);
      QuotePlusRoundTrip(s[1..]);
      assert s == [c] + s[1..];
    }
  }

  /** `unquote_plus` (what `parse_qs` applies) undoes `encodeURIComponent` on ASCII text. */
  lemma {:induction false} UriComponentRoundTrip(s: string)
    requires IsAscii(s)
    ensures UnquotePlus(EncodeUriComponent(s)) == s
    decreases |s|
  {
    if |s| > 0 {
      var c := s[0];
      assert EscapeAll([c as int]) == Escape(c as int);
      assert DecodesTo(EncodeUriComponentChar(c), c);
      DecodeStep(EncodeUriComponentChar(c), EncodeUriComponent(s[1..]), c);
      UriComponentRoundTrip(s[1..]);
      assert s == [c] + s[1..];
    }
  }

  /**
   * The query component `urlsplit` reports: what follows the first `?` in
   * the part of the URL before its first `#`, or nothing.
   */
  function UrlQuery(url: string): (q: string)
    ensures '#' !in q
    ensures '?' !in url ==> q == ""
  {
    var beforeFragment := if '#' in url then SplitFirst(url, '#').0 else url;
    if '?' in beforeFragment then SplitFirst(beforeFragment, '?').1 else ""
  }

  lemma UrlQueryOf(path: string, query: string)
    requires '?' !in path && '#' !in path && '#' !in query
    ensures UrlQuery(path + "?" + query) == query
  {
    SplitFirstUnique(path + "?" + query, '?', path, query);
  }

  /**
   * One `&`-separated field as `parse_qsl` reads it with blank values
   * dropped: a field without `=`, or with nothing after its first `=`, gives
   * nothing; otherwise name and value are split at the first `=` and both are
   * decoded with `unquote_plus`.
   */
  function ParseField(field: string): Option<(string, string)> {
    if '=' !in field then None
    else
      var (name, value) := SplitFirst(field, '=');
      if value == "" then None else Some((UnquotePlus(name), UnquotePlus(value)))
  }

  function ParseFields(fields: seq<string>): (r: seq<(string, string)>)
    ensures forall p :: p in r ==> p.1 != ""
    decreases |fields|
  {
    if |fields| == 0 then []
    else match ParseField(fields[0])
      case None => ParseFields(fields[1..])
      case Some(p) => [p] + ParseFields(fields[1..])
  }

  /** `parse_qsl(query)`: the name/value pairs in order, blank values dropped. */
  function ParseQsl(query: string): (r: seq<(string, string)>)
    ensures forall p :: p in r ==> p.1 != ""
  {
    ParseFields(Split(query, '&'))
  }

  /** The index of the first pair named `name`. */
  function FindName(pairs: seq<(string, string)>, name: string): (r: Option<nat>)
    ensures r.None? ==> forall i :: 0 <= i < |pairs| ==> pairs[i].0 != name
    ensures r.Some? ==> r.value < |pairs| && pairs[r.value].0 == name
    ensures r.Some? ==> forall j :: 0 <= j < r.value ==> pairs[j].0 != name
    decreases |pairs|
  {
    if |pairs| == 0 then None
    else if pairs[0].0 == name then Some(0)
    else match FindName(pairs[1..], name)
      case None => None
      case Some(i) => Some(i + 1)
  }

  /** `parse_qs(query)[name][0]` when `name in parse_qs(query)`, and `None` otherwise. */
  function QueryValue(query: string, name: string): (r: Option<string>)
    ensures r.Some? ==> r.value != "" && (name, r.value) in ParseQsl(query)
    ensures r.None? <==> forall p :: p in ParseQsl(query) ==> p.0 != name
  {
    var pairs := ParseQsl(query);
    match FindName(pairs, name)
    case None => None
    case Some(i) => assert pairs[i] in pairs; Some(pairs[i].1)
  }

  function EncodePair(p: (string, string)): string {
    QuotePlus(p.0) + "=" + QuotePlus(p.1)
  }

  /** An encoded pair holds no `&` and no `#`. */
  lemma EncodedPairPlain(p: (string, string))
    ensures '&' !in EncodePair(p) && '#' !in EncodePair(p)
  {
    QuotePlusAlphabet(p.0);
    QuotePlusAlphabet(p.1);
  }

  function EncodePairs(pairs: seq<(string, string)>): (r: seq<string>)
    ensures |r| == |pairs|
    ensures forall i :: 0 <= i < |pairs| ==> r[i] == EncodePair(pairs[i])
    decreases |pairs|
  {
    if |pairs| == 0 then [] else [EncodePair(pairs[0])] + EncodePairs(pairs[1..])
  }

  /** `urlencode(pairs)`: `quote_plus` on every key and value, joined by `=` and `&`. */
  function UrlEncode(pairs: seq<(string, string)>): (r: string)
    ensures '#' !in r
  {
    EncodedFieldsPlain(pairs);
    JoinWithout(EncodePairs(pairs), '&', '#');
    Join(EncodePairs(pairs), '&')
  }

  lemma EncodedFieldsPlain(pairs: seq<(string, string)>)
    ensures forall f :: f in EncodePairs(pairs) ==> '#' !in f
  {
    var fields := EncodePairs(pairs);
    forall f | f in fields ensures '#' !in f {
      var i :| 0 <= i < |fields| && fields[i] == f;
      EncodedPairPlain(pairs[i]);
    }
  }

  predicate Encodable(pairs: seq<(string, string)>) {
    forall i :: 0 <= i < |pairs| ==> IsAscii(pairs[i].0) && IsAscii(pairs[i].1) && pairs[i].1 != ""
  }

  lemma ParseEncodedPair(p: (string, string))
    requires IsAscii(p.0) && IsAscii(p.1) && p.1 != ""
    ensures ParseField(EncodePair(p)) == Some(p)
  {
    QuotePlusAlphabet(p.0);
    QuotePlusAlphabet(p.1);
    assert '=' !in QuotePlus(p.0);
    SplitFirstUnique(EncodePair(p), '=', QuotePlus(p.0), QuotePlus(p.1));
    QuotePlusRoundTrip(p.0);
    QuotePlusRoundTrip(p.1);
  }

  lemma {:induction false} ParseEncodedPairs(pairs: seq<(string, string)>)
    requires Encodable(pairs)
    ensures ParseFields(EncodePairs(pairs)) == pairs
    decreases |pairs|
  {
    if |pairs| > 0 {
      var fields := EncodePairs(pairs);
      assert fields[1..] == EncodePairs(pairs[1..]);
      ParseEncodedPair(pairs[0]);
      EncodableTail(pairs);
      ParseEncodedPairs(pairs[1..]);
      assert ParseField(fields[0]) == Some(pairs[0]);
    }
  }

  lemma EncodableTail(pairs: seq<(string, string)>)
    requires Encodable(pairs) && |pairs| > 0
    ensures Encodable(pairs[1..])
  {
    forall i | 0 <= i < |pairs| - 1 ensures IsAscii(pairs[1..][i].0) && IsAscii(pairs[1..][i].1) && pairs[1..][i].1 != "" {
      assert pairs[1..][i] == pairs[i + 1];
    }
  }

  /** What `urlencode` writes, `parse_qsl` reads back unchanged (ASCII, non-blank values). */
  lemma UrlEncodeRoundTrip(pairs: seq<(string, string)>)
    requires Encodable(pairs)
    ensures ParseQsl(UrlEncode(pairs)) == pairs
  {
    var fields := EncodePairs(pairs);
    if |pairs| == 0 {
      assert Split("", '&') == [""];
    } else {
      forall f | f in fields ensures '&' !in f {
        var i :| 0 <= i < |fields| && fields[i] == f;
        EncodedPairPlain(pairs[i]);
      }
      SplitJoin(fields, '&');
      ParseEncodedPairs(pairs);
    }
  }

  /**
   * A query `name=encodeURIComponent(value)`, as the handlers' pages send it,
   * is read back by `parse_qs` as exactly `value` (ASCII, non-empty).
   */
  lemma QueryValueOfEncoded(name: string, value: string)
    requires AllUnreserved(name)
    requires IsAscii(value) && value != ""
    ensures '#' !in name + "=" + EncodeUriComponent(value)
    ensures QueryValue(name + "=" + EncodeUriComponent(value), name) == Some(value)
  {
    var e := EncodeUriComponent(value);
    var q := name + "=" + e;
    EncodedFieldPlain(name, value);
    assert Split(q, '&') == [q];
    EncodedFieldParsed(name, value);
    assert ParseFields([q]) == [(name, value)] + ParseFields([]);
  }

  lemma EncodedFieldPlain(name: string, value: string)
    requires AllUnreserved(name)
    ensures '=' !in name && '%' !in name && '+' !in name
    ensures '#' !in name + "=" + EncodeUriComponent(value)
    ensures '&' !in name + "=" + EncodeUriComponent(value)
  {
    UnreservedPlain(name);
    var e := EncodeUriComponent(value);
    assert '#' !in e && '&' !in e;
  }

  lemma UnreservedPlain(name: string)
    requires AllUnreserved(name)
    ensures '=' !in name && '%' !in name && '+' !in name && '#' !in name && '&' !in name
  {
  }

  lemma EncodedFieldParsed(name: string, value: string)
    requires AllUnreserved(name)
    requires IsAscii(value) && value != ""
    ensures ParseField(name + "=" + EncodeUriComponent(value)) == Some((name, value))
  {
    var e := EncodeUriComponent(value);
    EncodedFieldPlain(name, value);
    SplitFirstUnique(name + "=" + e, '=', name, e);
    DecodeIdentity(name, true);
    UriComponentRoundTrip(value);
  }
}
