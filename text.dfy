/** The JavaScript string operations the source relies on, over
    `seq<char>`: `split`, `join`, `trim`, `indexOf`, `startsWith`,
    `replace` with a global pattern, `toUpperCase`, and `Number#toString`
    for integers. */
module Text {

  predicate StartsWith(s: string, prefix: string) {
    |prefix| <= |s| && s[..|prefix|] == prefix
  }

  predicate NoneOf(s: string, cs: set<char>) {
    forall i :: 0 <= i < |s| ==> s[i] !in cs
  }

  /** `path.join(a, b)` for relative segments without "." or "..". */
  function PathJoin(a: string, b: string): string {
    if a == "" then b
    else if a[|a| - 1] == '/' then a + b
    else a + "/" + b
  }

  // ---------- split / join ----------

  /** `s.split(sep)` generalised to a set of one-character separators: the
      pieces between separators, always at least one piece. */
  function Split(s: string, seps: set<char>): (parts: seq<string>)
    ensures |parts| >= 1
    ensures forall i :: 0 <= i < |parts| ==> NoneOf(parts[i], seps)
  {
    if s == [] then [""]
    else
      var rest := Split(s[1..], seps);
      if s[0] in seps then [""] + rest
      else [[s[0]] + rest[0]] + rest[1..]
  }

  /** `parts.join(sep)` */
  function Join(parts: seq<string>, sep: string): string {
    if parts == [] then ""
    else if |parts| == 1 then parts[0]
    else parts[0] + sep + Join(parts[1..], sep)
  }

  /** Splitting at one separator character and joining with it gives the text back. */
  lemma {:induction false} JoinSplit(s: string, c: char)
    ensures Join(Split(s, {c}), [c]) == s
  {
    if s != [] {
      var rest := Split(s[1..], {c});
      JoinSplit(s[1..], c);
      if s[0] == c {
        assert Split(s, {c}) == [""] + rest;
        assert ([""] + rest)[1..] == rest;
      } else {
        var parts := [[s[0]] + rest[0]] + rest[1..];
        assert Split(s, {c}) == parts;
        if |rest| == 1 {
          assert Join(parts, [c]) == [s[0]] + rest[0];
        } else {
          assert parts[1..] == rest[1..];
          assert Join(rest, [c]) == rest[0] + [c] + Join(rest[1..], [c]);
        }
        assert s == [s[0]] + s[1..];
      }
    }
  }

  // ---------- trim ----------

  /** The characters `String.prototype.trim` removes: ECMAScript WhiteSpace
      (tab, vertical tab, form feed, space, no-break space, byte order
      mark, the Unicode space separators) and LineTerminator. */
  predicate IsJsSpace(c: char) {
    || c == '\t' || c == '\U{000B}' || c == '\U{000C}' || c == ' ' || c == '\U{00A0}' || c == '\U{FEFF}'
    || c == '\U{1680}' || ('\U{2000}' <= c <= '\U{200A}') || c == '\U{202F}' || c == '\U{205F}' || c == '\U{3000}'
    || c == '\n' || c == '\r' || c == '\U{2028}' || c == '\U{2029}'
  }

  /** The first position at or after `i` that does not hold white space. */
  function SkipSpaces(s: string, i: nat): (r: nat)
    requires i <= |s|
    ensures i <= r <= |s|
    ensures forall j :: i <= j < r ==> IsJsSpace(s[j])
    ensures r < |s| ==> !IsJsSpace(s[r])
    decreases |s| - i
  {
    if i < |s| && IsJsSpace(s[i]) then SkipSpaces(s, i + 1) else i
  }

  /** The end of `s[lo..hi]` once its trailing white space is dropped. */
  function SkipSpacesBack(s: string, lo: nat, hi: nat): (r: nat)
    requires lo <= hi <= |s|
    ensures lo <= r <= hi
    ensures forall j :: r <= j < hi ==> IsJsSpace(s[j])
    ensures r > lo ==> !IsJsSpace(s[r - 1])
    decreases hi
  {
    if hi > lo && IsJsSpace(s[hi - 1]) then SkipSpacesBack(s, lo, hi - 1) else hi
  }

  /** `s.trim()`: the text between the leading and the trailing white space. */
  function Trim(s: string): (r: string)
    ensures |r| <= |s|
    ensures r == [] || (!IsJsSpace(r[0]) && !IsJsSpace(r[|r| - 1]))
  {
    var a := SkipSpaces(s, 0);
    s[a..SkipSpacesBack(s, a, |s|)]
  }

  /** What `trim` removes is white space at either end, and nothing else. */
  lemma TrimRemovesOnlySpace(s: string)
    ensures exists a, b :: (0 <= a <= b <= |s| && Trim(s) == s[a..b]
              && (forall i :: 0 <= i < a ==> IsJsSpace(s[i]))
              && (forall i :: b <= i < |s| ==> IsJsSpace(s[i])))
  {
    var a := SkipSpaces(s, 0);
    var b := SkipSpacesBack(s, a, |s|);
    assert Trim(s) == s[a..b];
  }

  /** A text with no white space at its ends is its own trim. */
  lemma TrimIdentity(s: string)
    requires s == [] || (!IsJsSpace(s[0]) && !IsJsSpace(s[|s| - 1]))
    ensures Trim(s) == s
  {
    assert SkipSpaces(s, 0) == 0;
    assert s[0..|s|] == s;
  }

  // ---------- indexOf / replace ----------

  /** `s.indexOf(c)`: the first position of `c`, or -1. */
  function IndexOf(s: string, c: char): (r: int)
    ensures -1 <= r < |s|
    ensures r == -1 <==> c !in s
    ensures r >= 0 ==> s[r] == c && c !in s[..r]
  {
    if s == [] then -1
    else if s[0] == c then 0
    else
      var k := IndexOf(s[1..], c);
      assert s[1..] == s[..|s|][1..];
      assert k >= 0 ==> s[..k + 1] == [s[0]] + s[1..][..k];
      if k == -1 then -1 else k + 1
  }

  /** `s.replace(/c/g, rep)`: every `c` replaced by `rep`. */
  function ReplaceAll(s: string, c: char, rep: string): string {
    if s == [] then ""
    else (if s[0] == c then rep else [s[0]]) + ReplaceAll(s[1..], c, rep)
  }

  lemma {:induction false} ReplaceAllAppend(a: string, b: string, c: char, rep: string)
    ensures ReplaceAll(a + b, c, rep) == ReplaceAll(a, c, rep) + ReplaceAll(b, c, rep)
  {
    if a != [] {
      assert (a + b)[1..] == a[1..] + b;
      ReplaceAllAppend(a[1..], b, c, rep);
    } else {
      assert a + b == b;
    }
  }

  /** Every character of the result comes from `rep` or is a character of
      `s` other than `c`. */
  lemma {:induction false} ReplaceAllChars(s: string, c: char, rep: string)
    ensures forall d :: d in ReplaceAll(s, c, rep) ==> d in rep || (d != c && d in s)
  {
    if s != [] {
      ReplaceAllChars(s[1..], c, rep);
      forall d | d in ReplaceAll(s, c, rep) ensures d in rep || (d != c && d in s) {
        var head := if s[0] == c then rep else [s[0]];
        assert ReplaceAll(s, c, rep) == head + ReplaceAll(s[1..], c, rep);
        if d in ReplaceAll(s[1..], c, rep) {
          assert d in rep || (d != c && d in s[1..]);
        }
      }
    }
  }

  lemma ReplaceAllSingle(x: char, c: char, rep: string)
    ensures ReplaceAll([x], c, rep) == if x == c then rep else [x]
  {
    assert [x][1..] == [];
  }

  /** A text without `c` is left as it is. */
  lemma {:induction false} ReplaceAllIdentity(s: string, c: char, rep: string)
    requires c !in s
    ensures ReplaceAll(s, c, rep) == s
  {
    if s != [] {
      assert s[0] != c;
      ReplaceAllIdentity(s[1..], c, rep);
    }
  }

  // ---------- numbers ----------

  /** The digit for value `k` ('0'..'9', then 'a'..'z'); reading it back gives `k`. */
  function DigitChar(k: nat): (c: char)
    requires k < 36
    ensures DigitValue(c) == k
  {
    if k < 10 then ('0' as int + k) as char else ('a' as int + k - 10) as char
  }

  lemma DivMod(n: nat, radix: nat)
    requires 2 <= radix
    ensures n % radix < radix
    ensures n >= radix ==> 0 < n / radix < n
    ensures n == (n / radix) * radix + n % radix
  {
  }

  /** `n.toString(radix)` for a natural number: lower-case digits, no leading zeros. */
  function NatToRadix(n: nat, radix: nat): (r: string)
    requires 2 <= radix <= 36
    ensures |r| >= 1 && forall i :: 0 <= i < |r| ==> DigitValue(r[i]) < radix
    decreases n
  {
    DivMod(n, radix);
    if n < radix then [DigitChar(n)]
    else NatToRadix(n / radix, radix) + [DigitChar(n % radix)]
  }

  /** `n.toString(radix)` for an integer: a minus sign before the digits of `|n|`. */
  function IntToRadix(n: int, radix: nat): (r: string)
    requires 2 <= radix <= 36
  {
    if n < 0 then "-" + NatToRadix(-n, radix) else NatToRadix(n, radix)
  }

  /** `String(n)` / `${n}` for an integer. */
  function IntToString(n: int): string {
    IntToRadix(n, 10)
  }

  /** The value of one digit character: a partner used only to state that
      `NatToRadix` loses no information. */
  function DigitValue(c: char): (v: nat)
    ensures v <= 36
    ensures v < 10 <==> '0' <= c <= '9'
    ensures 10 <= v < 36 <==> 'a' <= c <= 'z'
  {
    if '0' <= c <= '9' then (c - '0') as nat
    else if 'a' <= c <= 'z' then (c - 'a') as nat + 10
    else 36
  }

  function ParseNat(s: string, radix: nat): nat {
    if s == [] then 0
    else ParseNat(s[..|s| - 1], radix) * radix + DigitValue(s[|s| - 1])
  }

  function ParseInt(s: string, radix: nat): int {
    if s != [] && s[0] == '-' then -(ParseNat(s[1..], radix) as int) else ParseNat(s, radix)
  }

  lemma {:induction false} NatToRadixRoundTrip(n: nat, radix: nat)
    requires 2 <= radix <= 36
    ensures ParseNat(NatToRadix(n, radix), radix) == n
    decreases n
  {
    DivMod(n, radix);
    if n < radix {
      assert [DigitChar(n)][..0] == [];
    } else {
      var q, m := n / radix, n % radix;
      var front := NatToRadix(q, radix);
      var s := front + [DigitChar(m)];
      assert s == NatToRadix(n, radix);
      NatToRadixRoundTrip(q, radix);
      assert s[..|s| - 1] == front;
      assert ParseNat(s, radix) == ParseNat(front, radix) * radix + DigitValue(DigitChar(m));
    }
  }

  /** Reading the digits back gives the number: `toString(radix)` is injective. */
  lemma {:induction false} IntToRadixRoundTrip(n: int, radix: nat)
    requires 2 <= radix <= 36
    ensures ParseInt(IntToRadix(n, radix), radix) == n
  {
    var m: nat := if n < 0 then -n else n;
    var digits := NatToRadix(m, radix);
    NatToRadixRoundTrip(m, radix);
    assert DigitValue(digits[0]) < radix;
    if n < 0 {
      var s := "-" + digits;
      assert s[1..] == digits;
      assert ParseInt(s, radix) == -(ParseNat(digits, radix) as int);
    } else {
      assert ParseInt(digits, radix) == ParseNat(digits, radix);
    }
  }

  lemma IntToStringInjective(a: int, b: int)
    requires IntToString(a) == IntToString(b)
    ensures a == b
  {
    IntToRadixRoundTrip(a, 10);
    IntToRadixRoundTrip(b, 10);
  }

  /** `s.toUpperCase()` on ASCII letters; the strings it is applied to in
      this model hold no other letters. */
  function ToUpperCase(s: string): (r: string)
    ensures |r| == |s|
    ensures forall i :: 0 <= i < |s| ==> r[i] == if 'a' <= s[i] <= 'z' then (s[i] - 'a' + 'A') else s[i]
  {
    if s == [] then ""
    else [if 'a' <= s[0] <= 'z' then (s[0] - 'a' + 'A') as char else s[0]] + ToUpperCase(s[1..])
  }
}
