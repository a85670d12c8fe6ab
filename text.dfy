/**
 * The Python `str` operations the login helper relies on: `upper`, `strip`,
 * `rstrip`, `startswith`, `in`, `split` and `split(c, 1)`, together with the
 * character classes `\s` and `\w` of the `re` module.
 */
module Text {
  import opened Wrappers

  /** `str.isspace()`, which is also what `\s` and `str.strip()` use. */
  predicate IsSpace(c: char) {
    c == ' ' || '\t' <= c <= '\r' || '\U{1c}' <= c <= '\U{1f}'
    || c == '\U{85}' || c == '\U{a0}' || c == '\U{1680}'
    || '\U{2000}' <= c <= '\U{200a}' || c == '\U{2028}' || c == '\U{2029}'
    || c == '\U{202f}' || c == '\U{205f}' || c == '\U{3000}'
  }

  /** `\w` restricted to ASCII: letters, digits and the underscore. */
  predicate IsWordChar(c: char) {
    'a' <= c <= 'z' || 'A' <= c <= 'Z' || '0' <= c <= '9' || c == '_'
  }

  predicate IsAscii(s: string) {
    forall i :: 0 <= i < |s| ==> s[i] as int < 128
  }

  /** `str.upper()` on one character (ASCII letters only). */
  function UpperChar(c: char): (u: char)
    ensures 'a' <= c <= 'z' ==> u as int == c as int - 32
    ensures !('a' <= c <= 'z') ==> u == c
  {
    if 'a' <= c <= 'z' then (c as int - 32) as char else c
  }

  function Upper(s: string): (u: string)
    ensures |u| == |s|
    ensures forall i :: 0 <= i < |s| ==> u[i] == UpperChar(s[i])
  {
    seq(|s|, i requires 0 <= i < |s| => UpperChar(s[i]))
  }

  lemma UpperAppend(a: string, b: string)
    ensures Upper(a + b) == Upper(a) + Upper(b)
  {
    assert forall i :: 0 <= i < |a + b| ==> Upper(a + b)[i] == (Upper(a) + Upper(b))[i];
  }

  /** `str.lstrip()`: drops leading whitespace and nothing else. */
  function LStrip(s: string): (r: string)
    ensures |r| <= |s| && r == s[|s| - |r|..]
    ensures r == [] || !IsSpace(r[0])
    ensures forall i :: 0 <= i < |s| - |r| ==> IsSpace(s[i])
    decreases |s|
  {
    if |s| > 0 && IsSpace(s[0]) then LStrip(s[1..]) else s
  }

  /** `str.rstrip()`: drops trailing whitespace and nothing else. */
  function RStrip(s: string): (r: string)
    ensures r <= s
    ensures r == [] || !IsSpace(r[|r| - 1])
    ensures forall i :: |r| <= i < |s| ==> IsSpace(s[i])
    decreases |s|
  {
    if |s| > 0 && IsSpace(s[|s| - 1]) then RStrip(s[..|s| - 1]) else s
  }

  /** `str.strip()`. */
  function Strip(s: string): string {
    LStrip(RStrip(s))
  }

  /** `sub` occurs in `s` starting at index `i`. */
  predicate OccursAt(s: string, sub: string, i: int) {
    0 <= i && i + |sub| <= |s| && s[i..i + |sub|] == sub
  }

  /** Python's `sub in s`. */
  predicate Contains(s: string, sub: string) {
    exists i :: 0 <= i <= |s| && OccursAt(s, sub, i)
  }

  lemma ContainsAt(s: string, sub: string, i: int)
    requires OccursAt(s, sub, i)
    ensures Contains(s, sub)
  {
  }

  /** The index of the first `c` in `s`, as `str.find` reports it. */
  function FindChar(s: string, c: char): (r: Option<nat>)
    ensures r.None? <==> c !in s
    ensures r.Some? ==> r.value < |s| && s[r.value] == c && c !in s[..r.value]
    decreases |s|
  {
    if |s| == 0 then None
    else if s[0] == c then Some(0)
    else match FindChar(s[1..], c)
      case None => None
      case Some(i) => Some(i + 1)
  }

  /** `s.split(c, 1)`: the text before the first `c` and the text after it. */
  function SplitFirst(s: string, c: char): (r: (string, string))
    requires c in s
    ensures s == r.0 + [c] + r.1 && c !in r.0
  {
    var i := FindChar(s, c).value;
    (s[..i], s[i + 1..])
  }

  lemma SplitFirstUnique(s: string, c: char, a: string, b: string)
    requires s == a + [c] + b && c !in a
    ensures c in s && SplitFirst(s, c) == (a, b)
  {
    assert s[|a|] == c;
    var i := FindChar(s, c).value;
    assert s[..|a|] == a;
    assert i == |a|;
    assert s[i + 1..] == b;
  }

  /** `s.split(c)`: the pieces between consecutive occurrences of `c`. */
  function Split(s: string, c: char): (r: seq<string>)
    ensures |r| >= 1
    ensures forall p :: p in r ==> c !in p
    ensures Join(r, c) == s
    decreases |s|
  {
    match FindChar(s, c)
    case None => [s]
    case Some(i) =>
      var rest := Split(s[i + 1..], c);
      assert Join([s[..i]] + rest, c) == s[..i] + [c] + Join(rest, c);
      assert s == s[..i] + [c] + s[i + 1..];
      [s[..i]] + rest
  }

  /** `c.join(ps)`, the inverse of `Split`. */
  function Join(ps: seq<string>, c: char): string
    decreases |ps|
  {
    if |ps| == 0 then ""
    else if |ps| == 1 then ps[0]
    else ps[0] + [c] + Join(ps[1..], c)
  }

  /** Splitting a join of pieces that do not contain the separator gives the pieces back. */
  lemma {:induction false} SplitJoin(ps: seq<string>, c: char)
    requires |ps| >= 1
    requires forall p :: p in ps ==> c !in p
    ensures Split(Join(ps, c), c) == ps
    decreases |ps|
  {
    if |ps| == 1 {
      assert FindChar(ps[0], c).None?;
    } else {
      var s := Join(ps, c);
      var rest := Join(ps[1..], c);
      assert s == ps[0] + [c] + rest;
      assert ps[0] in ps;
      assert s[|ps[0]|] == c;
      assert s[..|ps[0]|] == ps[0];
      var i := FindChar(s, c).value;
      assert i == |ps[0]|;
      assert s[i + 1..] == rest;
      assert forall p :: p in ps[1..] ==> p in ps;
      SplitJoin(ps[1..], c);
    }
  }

  /** The decimal digits of `n`, as `str(n)` writes them. */
  function Digits(n: nat): (r: string)
    ensures |r| > 0
    ensures forall c :: c in r ==> '0' <= c <= '9'
    decreases n
  {
    if n < 10 then [('0' as int + n) as char] else Digits(n / 10) + [('0' as int + n % 10) as char]
  }

  /** `str(n)` for an integer. */
  function IntToString(n: int): (r: string)
    ensures forall c :: c in r ==> '0' <= c <= '9' || c == '-'
  {
    if n < 0 then "-" + Digits(-n) else Digits(n)
  }

  /** Joining pieces that lack a character with a different separator does not create it. */
  lemma {:induction false} JoinWithout(ps: seq<string>, sep: char, c: char)
    requires sep != c
    requires forall p :: p in ps ==> c !in p
    ensures c !in Join(ps, sep)
    decreases |ps|
  {
    if |ps| > 1 {
      assert ps[0] in ps;
      forall p | p in ps[1..] ensures c !in p {
        assert p in ps;
      }
      JoinWithout(ps[1..], sep, c);
    }
  }
}
