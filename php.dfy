/**
 * The parts of PHP's runtime behaviour that the OAuth2 decision core relies
 * on: truthiness of string-or-null values, Symfony's NotBlank constraint,
 * `strcasecmp` over a `substr` prefix, `preg_split('/\s+/', ...)`,
 * `array_intersect` with its key preservation and the `!==` identity test,
 * string-keyed arrays with `isset`/`unset`, and `bin2hex`.
 */
module Php {

  datatype Option<+T> = None | Some(value: T)

  // ---------------------------------------------------------------------
  // Truthiness

  /** A string-or-null value `v` is truthy in PHP unless it is null, "" or "0";
      `!$v` and `empty($v)` are both `!Truthy(v)`. */
  predicate Truthy(v: Option<string>) {
    v.Some? && v.value != "" && v.value != "0"
  }

  /** Symfony's NotBlank constraint: null and "" are blank, "0" is not. */
  predicate NotBlank(v: Option<string>) {
    v.Some? && v.value != ""
  }

  /** Truthiness and `NotBlank` differ on exactly one value: `"0"` is not
      blank, yet falsy. Neither reads whitespace as empty. */
  lemma TruthyVersusNotBlank(v: Option<string>)
    ensures Truthy(v) ==> NotBlank(v)
    ensures NotBlank(v) && !Truthy(v) <==> v == Some("0")
    ensures !NotBlank(v) <==> v == None || v == Some("")
    ensures Truthy(Some(" ")) && Truthy(Some("00")) && Truthy(Some("false"))
  {
  }

  // ---------------------------------------------------------------------
  // strcasecmp and substr

  /** ASCII case folding, as `strcasecmp` applies it to each byte. */
  function Lower(c: char): char {
    if 'A' <= c <= 'Z' then (c as int + 32) as char else c
  }

  /** `strcasecmp(a, b) === 0`. */
  predicate StrCaseEq(a: string, b: string) {
    |a| == |b| && forall i :: 0 <= i < |a| ==> Lower(a[i]) == Lower(b[i])
  }

  /** `substr(s, 0, n)` for a non-negative length `n`: the first `n`
      characters, or all of `s` when it is shorter. */
  function Substr(s: string, n: nat): (r: string)
    ensures r <= s
    ensures |r| == if n <= |s| then n else |s|
  {
    if n <= |s| then s[..n] else s
  }

  /** Reference definition: `p` is a prefix of `s` up to ASCII case. */
  predicate HasPrefixIgnoringCase(p: string, s: string) {
    |p| <= |s| && forall i :: 0 <= i < |p| ==> Lower(s[i]) == Lower(p[i])
  }

  /** The source's test `strcasecmp(substr(s, 0, strlen(p)), p) === 0` is the
      case-insensitive prefix test; in particular it fails whenever `s` is
      shorter than `p`. */
  lemma StrCaseCmpIsPrefixTest(p: string, s: string)
    ensures StrCaseEq(Substr(s, |p|), p) <==> HasPrefixIgnoringCase(p, s)
    ensures |s| < |p| ==> !StrCaseEq(Substr(s, |p|), p)
  {
  }

  // ---------------------------------------------------------------------
  // preg_split('/\s+/', s)

  /** The characters PCRE's `\s` matches. */
  predicate IsSpace(c: char) {
    c == ' ' || c == '\t' || c == '\n' || c == '\r' || c == 11 as char || c == 12 as char
  }

  predicate NoSpace(s: string) {
    forall i :: 0 <= i < |s| ==> !IsSpace(s[i])
  }

  /** Index of the first whitespace character of `s`, or `|s|` if none. */
  function FirstSpace(s: string): (i: nat)
    ensures i <= |s|
    ensures forall k :: 0 <= k < i ==> !IsSpace(s[k])
    ensures i < |s| ==> IsSpace(s[i])
  {
    if s == [] || IsSpace(s[0]) then 0 else 1 + FirstSpace(s[1..])
  }

  /** `s` without its leading run of whitespace. */
  function SkipSpaces(s: string): (r: string)
    ensures |r| <= |s| && r == s[|s| - |r|..]
    ensures r == [] || !IsSpace(r[0])
    ensures s != [] && IsSpace(s[0]) ==> |r| < |s|
    ensures s == [] || !IsSpace(s[0]) ==> r == s
  {
    if s != [] && IsSpace(s[0]) then SkipSpaces(s[1..]) else s
  }

  /** `preg_split('/\s+/', s)`: the pieces between maximal runs of whitespace.
      A leading or trailing run yields an empty first or last piece, and the
      result is never empty. */
  function PregSplit(s: string): (r: seq<string>)
    ensures |r| >= 1
    ensures forall k :: 0 <= k < |r| ==> NoSpace(r[k])
    decreases |s|
  {
    var i := FirstSpace(s);
    if i == |s| then [s] else [s[..i]] + PregSplit(SkipSpaces(s[i..]))
  }

  /** `implode(' ', ps)`, the space-separated form RFC 6749 section 3.3 gives
      a scope list. */
  function Join(ps: seq<string>): string {
    if ps == [] then "" else if |ps| == 1 then ps[0] else ps[0] + " " + Join(ps[1..])
  }

  /** A list of scope tokens: non-empty and free of whitespace. */
  predicate ScopeTokens(ps: seq<string>) {
    |ps| >= 1 && forall k :: 0 <= k < |ps| ==> ps[k] != "" && NoSpace(ps[k])
  }

  lemma {:induction false} FirstSpaceOfJoined(p: string, t: string)
    requires NoSpace(p)
    requires t != [] && IsSpace(t[0])
    ensures FirstSpace(p + t) == |p|
    decreases |p|
  {
    if p != [] {
      assert (p + t)[1..] == p[1..] + t;
      FirstSpaceOfJoined(p[1..], t);
    } else {
      assert p + t == t;
    }
  }

  lemma {:induction false} JoinStartsWithHead(ps: seq<string>)
    requires ScopeTokens(ps)
    ensures Join(ps) != [] && Join(ps)[0] == ps[0][0]
  {
  }

  /** Splitting a space-joined list of scope tokens gives the list back. */
  lemma {:induction false} SplitJoinRoundTrip(ps: seq<string>)
    requires ScopeTokens(ps)
    ensures PregSplit(Join(ps)) == ps
    decreases |ps|
  {
    if |ps| == 1 {
      assert FirstSpace(ps[0]) == |ps[0]|;
    } else {
      var p, rest := ps[0], Join(ps[1..]);
      assert ScopeTokens(ps[1..]) by {
        forall k | 0 <= k < |ps[1..]| ensures ps[1..][k] != "" && NoSpace(ps[1..][k]) {
          assert ps[1..][k] == ps[k + 1];
        }
      }
      JoinStartsWithHead(ps[1..]);
      var s := Join(ps);
      assert s == p + (" " + rest);
      FirstSpaceOfJoined(p, " " + rest);
      assert s[..|p|] == p;
      assert s[|p|..] == " " + rest;
      assert SkipSpaces(" " + rest) == rest by {
        assert (" " + rest)[1..] == rest;
      }
      SplitJoinRoundTrip(ps[1..]);
      assert PregSplit(s) == [p] + PregSplit(rest);
    }
  }

  // ---------------------------------------------------------------------
  // array_intersect($s, $x) !== $s

  /** The PHP list `s` seen as an array: its elements paired with keys
      counted from `base`. */
  function ListFrom(s: seq<string>, base: nat): (r: seq<(nat, string)>)
    ensures |r| == |s|
  {
    if s == [] then [] else [(base, s[0])] + ListFrom(s[1..], base + 1)
  }

  /** `array_intersect(s, x)` for the list `s` with keys from `base`: the
      entries of `s` whose value occurs in `x`, in order, keeping their keys. */
  function IntersectFrom(s: seq<string>, x: seq<string>, base: nat): (r: seq<(nat, string)>)
    ensures |r| <= |s|
  {
    if s == [] then []
    else (if s[0] in x then [(base, s[0])] else []) + IntersectFrom(s[1..], x, base + 1)
  }

  /** `array_intersect($s, $x) === $s` for a list `$s`. */
  predicate IntersectIsIdentity(s: seq<string>, x: seq<string>) {
    IntersectFrom(s, x, 0) == ListFrom(s, 0)
  }

  lemma {:induction false} IntersectFromIsIdentityIff(s: seq<string>, x: seq<string>, base: nat)
    ensures IntersectFrom(s, x, base) == ListFrom(s, base) <==> forall e :: e in s ==> e in x
    decreases |s|
  {
    if s != [] {
      IntersectFromIsIdentityIff(s[1..], x, base + 1);
      if s[0] in x {
        var head := [(base, s[0])];
        var a, b := IntersectFrom(s[1..], x, base + 1), ListFrom(s[1..], base + 1);
        assert head + a == head + b <==> a == b by {
          if head + a == head + b {
            assert a == (head + a)[1..] && b == (head + b)[1..];
          }
        }
        assert forall e :: e in s <==> e == s[0] || e in s[1..];
      } else {
        assert |IntersectFrom(s, x, base)| < |ListFrom(s, base)|;
      }
    }
  }

  /** The scope-subset rule: `array_intersect($s, $x) !== $s` is false
      exactly when every element of `s` occurs in `x`. */
  lemma IntersectIsIdentityIff(s: seq<string>, x: seq<string>)
    ensures IntersectIsIdentity(s, x) <==> forall e :: e in s ==> e in x
  {
    IntersectFromIsIdentityIff(s, x, 0);
  }

  // ---------------------------------------------------------------------
  // String-keyed arrays

  /** A PHP array with string keys and string values, in insertion order.
      The sequence type admits a key twice, which a PHP array cannot hold;
      `UniqueKeys` says an array is one PHP could build, and on such arrays
      `Get` finds the one entry under a key (`GetUnique`). */
  type PhpArray = seq<(string, string)>

  predicate UniqueKeys(a: PhpArray) {
    forall i, j :: 0 <= i < j < |a| ==> a[i].0 != a[j].0
  }

  /** `isset($a[$k]) ? $a[$k] : null`. */
  function Get(a: PhpArray, k: string): (r: Option<string>)
    ensures r.Some? <==> exists i :: 0 <= i < |a| && a[i].0 == k
    ensures r.Some? ==> (k, r.value) in a
  {
    if a == [] then None else if a[0].0 == k then Some(a[0].1) else Get(a[1..], k)
  }

  /** In an array with unique keys, the value read under a key is the value
      of the entry stored under it. */
  lemma {:induction false} GetUnique(a: PhpArray, k: string, x: string)
    requires UniqueKeys(a)
    ensures Get(a, k) == Some(x) <==> (k, x) in a
  {
    if a != [] && a[0].0 != k {
      assert UniqueKeys(a[1..]) by {
        forall i, j | 0 <= i < j < |a[1..]| ensures a[1..][i].0 != a[1..][j].0 {
          assert a[1..][i] == a[i + 1] && a[1..][j] == a[j + 1];
        }
      }
      GetUnique(a[1..], k, x);
      assert (k, x) in a <==> (k, x) in a[1..] by {
        assert a == [a[0]] + a[1..];
      }
    } else if a != [] {
      if (k, x) in a {
        var i :| 0 <= i < |a| && a[i] == (k, x);
        assert i == 0 || a[0].0 != a[i].0;
      }
    }
  }

  /** `unset($a[$k])`: the entry under `k` goes, the others keep their order. */
  function Unset(a: PhpArray, k: string): (r: PhpArray)
    ensures Get(r, k) == None
    ensures forall j :: j != k ==> Get(r, j) == Get(a, j)
    ensures forall e :: e in r <==> e in a && e.0 != k
  {
    if a == [] then []
    else if a[0].0 == k then Unset(a[1..], k)
    else [a[0]] + Unset(a[1..], k)
  }

  // ---------------------------------------------------------------------
  // bin2hex

  newtype byte = x: int | 0 <= x < 256

  predicate IsLowerHex(c: char) {
    '0' <= c <= '9' || 'a' <= c <= 'f'
  }

  function HexDigit(n: int): (c: char)
    requires 0 <= n < 16
    ensures IsLowerHex(c)
  {
    if n < 10 then ('0' as int + n) as char else ('a' as int + n - 10) as char
  }

  /** `bin2hex(b)`: two lower-case hexadecimal digits per byte, high nibble first. */
  function Bin2Hex(b: seq<byte>): (r: string)
    ensures |r| == 2 * |b|
    ensures forall i :: 0 <= i < |r| ==> IsLowerHex(r[i])
  {
    if b == [] then ""
    else [HexDigit(b[0] as int / 16), HexDigit(b[0] as int % 16)] + Bin2Hex(b[1..])
  }

  function HexValue(c: char): (n: int)
    ensures 0 <= n < 16
  {
    if '0' <= c <= '9' then c as int - '0' as int
    else if 'a' <= c <= 'f' then c as int - 'a' as int + 10
    else 0
  }

  /** `hex2bin(s)` on lower-case input of even length. */
  function Hex2Bin(s: string): seq<byte>
    requires |s| % 2 == 0
  {
    if s == [] then [] else [(HexValue(s[0]) * 16 + HexValue(s[1])) as byte] + Hex2Bin(s[2..])
  }

  /** Decoding the hex text gives the bytes back. */
  lemma {:induction false} HexRoundTrip(b: seq<byte>)
    ensures Hex2Bin(Bin2Hex(b)) == b
  {
    if b != [] {
      var n := b[0] as int;
      assert HexValue(HexDigit(n / 16)) == n / 16;
      assert HexValue(HexDigit(n % 16)) == n % 16;
      assert Bin2Hex(b)[2..] == Bin2Hex(b[1..]);
      HexRoundTrip(b[1..]);
    }
  }

  /** Distinct random byte strings give distinct hex codes. */
  lemma Bin2HexInjective(a: seq<byte>, b: seq<byte>)
    requires Bin2Hex(a) == Bin2Hex(b)
    ensures a == b
  {
    HexRoundTrip(a);
    HexRoundTrip(b);
  }
}
