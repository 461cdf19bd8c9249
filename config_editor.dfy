/** The configuration panel's content (src/providers/configEditorProvider.ts):
    HTML escaping, the range, path, status and label texts, and which
    section is shown as "not configured". The page is modelled as its
    structure (header, sections, tables of cells) with every cell's text;
    the surrounding markup and style sheet are not. */
module ConfigEditor {
  import opened Wrappers
  import opened Seqs
  import opened Text
  import opened Models
  import OaTypes
  import Catalog

  // ---------- escaping ----------

  /** `escapeHtml`: four global replacements, the ampersand first. */
  function EscapeHtml(s: string): string {
    ReplaceAll(ReplaceAll(ReplaceAll(ReplaceAll(s, '&', "&amp;"), '<', "&lt;"), '>', "&gt;"), '"', "&quot;")
  }

  /** The entity for one character, or the character itself. */
  function EscapeChar(c: char): string {
    if c == '&' then "&amp;"
    else if c == '<' then "&lt;"
    else if c == '>' then "&gt;"
    else if c == '"' then "&quot;"
    else [c]
  }

  /** Reference definition: every character escaped on its own. */
  function EscapeEach(s: string): string {
    if s == [] then "" else EscapeChar(s[0]) + EscapeEach(s[1..])
  }

  lemma EscapeOneChar(c: char)
    ensures EscapeHtml([c]) == EscapeChar(c)
  {
    ReplaceAllSingle(c, '&', "&amp;");
    if c == '&' {
      ReplaceAllIdentity("&amp;", '<', "&lt;");
      ReplaceAllIdentity("&amp;", '>', "&gt;");
      ReplaceAllIdentity("&amp;", '"', "&quot;");
    } else {
      ReplaceAllSingle(c, '<', "&lt;");
      if c == '<' {
        ReplaceAllIdentity("&lt;", '>', "&gt;");
        ReplaceAllIdentity("&lt;", '"', "&quot;");
      } else {
        ReplaceAllSingle(c, '>', "&gt;");
        if c == '>' {
          ReplaceAllIdentity("&gt;", '"', "&quot;");
        } else {
          ReplaceAllSingle(c, '"', "&quot;");
        }
      }
    }
  }

  /** Escaping a text is escaping it piece by piece. */
  lemma EscapeHtmlAppend(a: string, b: string)
    ensures EscapeHtml(a + b) == EscapeHtml(a) + EscapeHtml(b)
  {
    var p1a, p1b := ReplaceAll(a, '&', "&amp;"), ReplaceAll(b, '&', "&amp;");
    ReplaceAllAppend(a, b, '&', "&amp;");
    var p2a, p2b := ReplaceAll(p1a, '<', "&lt;"), ReplaceAll(p1b, '<', "&lt;");
    ReplaceAllAppend(p1a, p1b, '<', "&lt;");
    var p3a, p3b := ReplaceAll(p2a, '>', "&gt;"), ReplaceAll(p2b, '>', "&gt;");
    ReplaceAllAppend(p2a, p2b, '>', "&gt;");
    ReplaceAllAppend(p3a, p3b, '"', "&quot;");
  }

  /** Because the ampersand is replaced first, the four passes escape each
      character exactly once: no entity is escaped a second time. */
  lemma {:induction false} EscapeHtmlPerChar(s: string)
    ensures EscapeHtml(s) == EscapeEach(s)
  {
    if s != [] {
      assert s == [s[0]] + s[1..];
      EscapeHtmlAppend([s[0]], s[1..]);
      EscapeOneChar(s[0]);
      EscapeHtmlPerChar(s[1..]);
    }
  }

  /** The ampersand pass runs first, so the entity the later passes insert
      is not escaped again. */
  lemma NoDoubleEscape()
    ensures EscapeHtml("<") == "&lt;"
  {
    EscapeOneChar('<');
  }

  /** The output holds no '<', '>' or '"'. */
  lemma EscapedHasNoMarkup(s: string)
    ensures '<' !in EscapeHtml(s) && '>' !in EscapeHtml(s) && '"' !in EscapeHtml(s)
  {
    var p1 := ReplaceAll(s, '&', "&amp;");
    var p2 := ReplaceAll(p1, '<', "&lt;");
    var p3 := ReplaceAll(p2, '>', "&gt;");
    ReplaceAllChars(p1, '<', "&lt;");
    ReplaceAllChars(p2, '>', "&gt;");
    ReplaceAllChars(p3, '"', "&quot;");
    assert '<' !in p2;
    assert '<' !in p3 && '>' !in p3;
  }

  /** A text with nothing to escape is left as it is. */
  lemma EscapeIdentity(s: string)
    requires '&' !in s && '<' !in s && '>' !in s && '"' !in s
    ensures EscapeHtml(s) == s
  {
    ReplaceAllIdentity(s, '&', "&amp;");
    ReplaceAllIdentity(s, '<', "&lt;");
    ReplaceAllIdentity(s, '>', "&gt;");
    ReplaceAllIdentity(s, '"', "&quot;");
  }

  /** Decoding the four entities; the partner that shows escaping loses nothing. */
  function Unescape(s: string): string
    decreases |s|
  {
    if s == [] then ""
    else if s[0] != '&' then [s[0]] + Unescape(s[1..])
    else if StartsWith(s, "&amp;") then "&" + Unescape(s[5..])
    else if StartsWith(s, "&lt;") then "<" + Unescape(s[4..])
    else if StartsWith(s, "&gt;") then ">" + Unescape(s[4..])
    else if StartsWith(s, "&quot;") then "\"" + Unescape(s[6..])
    else [s[0]] + Unescape(s[1..])
  }

  lemma UnescapeAfter(c: char, t: string)
    ensures Unescape(EscapeChar(c) + t) == [c] + Unescape(t)
  {
    if c == '&' {
      UnescapeEntity("&amp;", c, t);
    } else if c == '<' {
      UnescapeEntity("&lt;", c, t);
    } else if c == '>' {
      UnescapeEntity("&gt;", c, t);
    } else if c == '"' {
      UnescapeEntity("&quot;", c, t);
    } else {
      var e := [c] + t;
      assert e[0] == c && e[1..] == t;
    }
  }

  /** One entity at the front is decoded and the rest is decoded after it. */
  lemma UnescapeEntity(entity: string, c: char, t: string)
    requires (entity, c) in {("&amp;", '&'), ("&lt;", '<'), ("&gt;", '>'), ("&quot;", '"')}
    ensures Unescape(entity + t) == [c] + Unescape(t)
  {
    var e := entity + t;
    assert e[..|entity|] == entity && e[|entity|..] == t;
    assert e[0] == '&' && e[1] == entity[1];
    if entity != "&amp;" { assert !StartsWith(e, "&amp;"); }
    if entity == "&gt;" || entity == "&quot;" { assert !StartsWith(e, "&lt;"); }
    if entity == "&quot;" { assert !StartsWith(e, "&gt;"); }
  }

  /** Unescaping an escaped text gives it back. */
  lemma {:induction false} EscapeRoundTrip(s: string)
    ensures Unescape(EscapeHtml(s)) == s
  {
    EscapeHtmlPerChar(s);
    EscapeEachRoundTrip(s);
  }

  lemma {:induction false} EscapeEachRoundTrip(s: string)
    ensures Unescape(EscapeEach(s)) == s
  {
    if s != [] {
      UnescapeAfter(s[0], EscapeEach(s[1..]));
      EscapeEachRoundTrip(s[1..]);
      assert s == [s[0]] + s[1..];
    }
  }

  // ---------- small texts ----------

  /** An integer column read as a JavaScript condition. */
  predicate Flag(n: int) { n != 0 }

  /** `s || ''` on a nullable text column. */
  function OrEmpty(s: Option<string>): string {
    if s.Some? then s.value else ""
  }

  /** The range text of one alert detail: an interval when both limits
      exist, else the quoted, escaped match pattern, else "n/a". */
  function AlertRangeText(d: AlertHdlDetail): (r: string)
    ensures d.lLimit.Some? && d.uLimit.Some? ==> |r| >= 8 && r[0] in {'[', '('} && r[|r| - 1] in {']', ')'}
    ensures !(d.lLimit.Some? && d.uLimit.Some?) && d.matchText.None? ==> r == "n/a"
  {
    if d.lLimit.Some? && d.uLimit.Some? then
      IntervalText(if Flag(d.lIncl) then "[" else "(", d.lLimit.value, d.uLimit.value, if Flag(d.uIncl) then "]" else ")")
    else if d.matchText.Some? then "match: \"" + EscapeHtml(d.matchText.value) + "\""
    else "n/a"
  }

  /** `open lo .. hi close` */
  function IntervalText(open: string, lo: int, hi: int, close: string): string {
    open + IntToString(lo) + " .. " + IntToString(hi) + close
  }

  /** The lower end of a PV range: its bracket and bound, or an open "(-inf". */
  function PvMinText(pv: PvRangeConfig): string {
    if pv.min.Some? then (if Flag(pv.inclMin) then "[" else "(") + IntToString(pv.min.value) else "(-inf"
  }

  /** The upper end of a PV range: its bound and bracket, or an open "+inf)". */
  function PvMaxText(pv: PvRangeConfig): string {
    if pv.max.Some? then IntToString(pv.max.value) + (if Flag(pv.inclMax) then "]" else ")") else "+inf)"
  }

  /** The PV range as an interval: a bracket, both ends, a bracket. */
  function PvRangeText(pv: PvRangeConfig): (r: string)
    ensures |r| >= 8 && r[0] in {'[', '('} && r[|r| - 1] in {']', ')'}
  {
    PvMinText(pv) + " .. " + PvMaxText(pv)
  }

  /** `dpName.label` when the datapoint name is known and non-empty, else the label. */
  function FullPath(dpName: Option<string>, treeLabel: string): (r: string)
    ensures |r| >= |treeLabel| && r[|r| - |treeLabel|..] == treeLabel
    ensures r == treeLabel <==> dpName.None? || dpName.value == ""
  {
    if dpName.Some? && dpName.value != "" then dpName.value + "." + treeLabel else treeLabel
  }

  /** The element's type name, "unknown" when the element was not found. */
  function TypeNameOf(dataType: Option<int>): (r: string)
    ensures r == "unknown" <==> dataType.None?
  {
    if dataType.Some? then
      OaTypes.NameShape(dataType.value);
      OaTypes.GetTypeName(dataType.value)
    else "unknown"
  }

  /** The status bits as "0x" and upper-case hexadecimal, 0 when NULL. */
  function StatusText(status64: Option<int>): (r: string)
    ensures |r| >= 3 && r[..2] == "0x"
  {
    "0x" + ToUpperCase(IntToRadix(status64.GetOr(0), 16))
  }

  /** A label table with the raw number as fallback (`table[code] || code`). */
  function Label(table: map<int, string>, code: int): (r: string)
    ensures r != ""
    ensures code !in table ==> r == IntToString(code)
  {
    if code in table && table[code] != "" then table[code] else IntToString(code)
  }

  const CONFIG_TYPES: map<int, string> :=
    map[1 := "Analog (range-based)", 2 := "Digital (discrete)", 3 := "Summary alert"]

  const PROC_TYPES: map<int, string> :=
    map[0 := "None", 1 := "Value-based", 2 := "Time-based", 3 := "Value & time-based"]

  const SMOOTH_TYPES: map<int, string> :=
    map[0 := "None", 1 := "Old/New comparison", 2 := "Old/New + tolerance"]

  /** `${n}` of a nullable integer with a fallback text (`n ?? fallback`). */
  function OrText(n: Option<int>, fallback: string): string {
    if n.Some? then IntToString(n.value) else fallback
  }

  function YesNo(n: int): string { if Flag(n) then "Yes" else "No" }

  /** `String(value)` of a stored value; NULL reads as "null". */
  function ValueText(v: SqlValue): string {
    match v
    case SqlNull => "null"
    case SqlInt(i) => IntToString(i)
    case SqlText(t) => t
  }

  // ---------- properties of the small texts ----------

  /** The characters a decimal numeral is made of. */
  const NUMERAL_CHARS: set<char> := {'-', '0', '1', '2', '3', '4', '5', '6', '7', '8', '9'}

  lemma NumeralChars(n: int)
    ensures forall i :: 0 <= i < |IntToString(n)| ==> IntToString(n)[i] in NUMERAL_CHARS
    ensures |IntToString(n)| >= 1
  {
    var digits := NatToRadix(if n < 0 then -n else n, 10);
    assert forall i :: 0 <= i < |digits| ==> digits[i] in NUMERAL_CHARS by {
      forall i | 0 <= i < |digits| ensures digits[i] in NUMERAL_CHARS {
        assert DigitValue(digits[i]) < 10;
      }
    }
    if n < 0 {
      assert IntToString(n) == "-" + digits;
      forall i | 0 <= i < |IntToString(n)| ensures IntToString(n)[i] in NUMERAL_CHARS {
        if i > 0 { assert IntToString(n)[i] == digits[i - 1]; }
      }
    }
  }

  /** Two texts without spaces joined by " .. " can be told apart again. */
  lemma {:induction false} SplitAtRangeDots(a1: string, b1: string, a2: string, b2: string)
    requires ' ' !in a1 && ' ' !in a2
    requires a1 + " .. " + b1 == a2 + " .. " + b2
    ensures a1 == a2 && b1 == b2
  {
    var t := a1 + " .. " + b1;
    assert t[|a1|] == ' ' && t[|a2|] == ' ';
    assert |a1| == |a2|;
    assert a1 == t[..|a1|] == a2;
    assert b1 == t[|a1| + 4..] == b2;
  }

  lemma NoSpaceInNumeral(n: int)
    ensures ' ' !in IntToString(n)
  {
    NumeralChars(n);
  }

  /** A text between one-character brackets tells the brackets and the text. */
  lemma BracketSplit(o1: string, m1: string, c1: string, o2: string, m2: string, c2: string)
    requires |o1| == 1 && |o2| == 1 && |c1| == 1 && |c2| == 1
    requires o1 + m1 + c1 == o2 + m2 + c2
    ensures o1 == o2 && m1 == m2 && c1 == c2
  {
    var t := o1 + m1 + c1;
    assert o1 == t[..1] == o2;
    assert c1 == t[|t| - 1..] == c2;
    assert m1 == t[1..|t| - 1] == m2;
  }

  /** An interval text with one-character brackets tells its brackets and both bounds. */
  lemma IntervalInjective(o1: string, l1: int, h1: int, c1: string, o2: string, l2: int, h2: int, c2: string)
    requires |o1| == 1 && |o2| == 1 && |c1| == 1 && |c2| == 1
    requires IntervalText(o1, l1, h1, c1) == IntervalText(o2, l2, h2, c2)
    ensures o1 == o2 && c1 == c2 && l1 == l2 && h1 == h2
  {
    var m1 := IntToString(l1) + " .. " + IntToString(h1);
    var m2 := IntToString(l2) + " .. " + IntToString(h2);
    IntervalParts(o1, IntToString(l1), IntToString(h1), c1);
    IntervalParts(o2, IntToString(l2), IntToString(h2), c2);
    BracketSplit(o1, m1, c1, o2, m2, c2);
    RangeInjective(l1, h1, l2, h2);
  }

  lemma IntervalParts(open: string, a: string, b: string, close: string)
    ensures open + a + " .. " + b + close == open + (a + " .. " + b) + close
  {
  }

  lemma RangeInjective(l1: int, h1: int, l2: int, h2: int)
    requires IntToString(l1) + " .. " + IntToString(h1) == IntToString(l2) + " .. " + IntToString(h2)
    ensures l1 == l2 && h1 == h2
  {
    NoSpaceInNumeral(l1);
    NoSpaceInNumeral(l2);
    SplitAtRangeDots(IntToString(l1), IntToString(h1), IntToString(l2), IntToString(h2));
    IntToStringInjective(l1, l2);
    IntToStringInjective(h1, h2);
  }

  /** An interval text tells both limits and both inclusion flags. */
  lemma AlertRangeInjective(d1: AlertHdlDetail, d2: AlertHdlDetail)
    requires d1.lLimit.Some? && d1.uLimit.Some? && d2.lLimit.Some? && d2.uLimit.Some?
    requires AlertRangeText(d1) == AlertRangeText(d2)
    ensures d1.lLimit == d2.lLimit && d1.uLimit == d2.uLimit
    ensures Flag(d1.lIncl) == Flag(d2.lIncl) && Flag(d1.uIncl) == Flag(d2.uIncl)
  {
    IntervalInjective(if Flag(d1.lIncl) then "[" else "(", d1.lLimit.value, d1.uLimit.value, if Flag(d1.uIncl) then "]" else ")",
                      if Flag(d2.lIncl) then "[" else "(", d2.lLimit.value, d2.uLimit.value, if Flag(d2.uIncl) then "]" else ")");
  }

  /** The match form is quoted, and the quotes delimit it: the escaped
      pattern holds no quote of its own. */
  lemma AlertMatchQuoted(d: AlertHdlDetail)
    requires !(d.lLimit.Some? && d.uLimit.Some?) && d.matchText.Some?
    ensures var t := AlertRangeText(d);
            StartsWith(t, "match: \"") && t[|t| - 1] == '"' && '"' !in t[8..|t| - 1]
            && Unescape(t[8..|t| - 1]) == d.matchText.value
  {
    var e := EscapeHtml(d.matchText.value);
    var t := AlertRangeText(d);
    assert t == "match: \"" + e + "\"";
    assert t[8..|t| - 1] == e;
    EscapedHasNoMarkup(d.matchText.value);
    EscapeRoundTrip(d.matchText.value);
  }

  /** A PV range text tells which bounds exist, their values and their brackets. */
  lemma PvRangeInjective(a: PvRangeConfig, b: PvRangeConfig)
    requires PvRangeText(a) == PvRangeText(b)
    ensures a.min == b.min && a.max == b.max
    ensures a.min.Some? ==> Flag(a.inclMin) == Flag(b.inclMin)
    ensures a.max.Some? ==> Flag(a.inclMax) == Flag(b.inclMax)
  {
    MinTextHasNoSpace(a);
    MinTextHasNoSpace(b);
    SplitAtRangeDots(PvMinText(a), PvMaxText(a), PvMinText(b), PvMaxText(b));
    MinTextInjective(a, b);
    MaxTextInjective(a, b);
  }

  lemma MinTextHasNoSpace(pv: PvRangeConfig)
    ensures ' ' !in PvMinText(pv)
  {
    if pv.min.Some? {
      NoSpaceInNumeral(pv.min.value);
    }
  }

  /** The lower end reads "(-inf" exactly when there is no lower bound. */
  lemma MinOpenIff(pv: PvRangeConfig)
    ensures PvMinText(pv) == "(-inf" <==> pv.min.None?
  {
    if pv.min.Some? {
      NumeralChars(pv.min.value);
      var t := PvMinText(pv);
      assert |t| < 4 || t[3] != 'i' by {
        if |t| >= 4 { assert t[3] == IntToString(pv.min.value)[2]; }
      }
    }
  }

  /** The upper end reads "+inf)" exactly when there is no upper bound. */
  lemma MaxOpenIff(pv: PvRangeConfig)
    ensures PvMaxText(pv) == "+inf)" <==> pv.max.None?
  {
    if pv.max.Some? {
      NumeralChars(pv.max.value);
      assert PvMaxText(pv)[0] == IntToString(pv.max.value)[0];
    }
  }

  lemma MinTextInjective(a: PvRangeConfig, b: PvRangeConfig)
    requires PvMinText(a) == PvMinText(b)
    ensures a.min == b.min
    ensures a.min.Some? ==> Flag(a.inclMin) == Flag(b.inclMin)
  {
    MinOpenIff(a);
    MinOpenIff(b);
    if a.min.Some? {
      var t := PvMinText(a);
      assert IntToString(a.min.value) == t[1..] == IntToString(b.min.value);
      IntToStringInjective(a.min.value, b.min.value);
    }
  }

  lemma MaxTextInjective(a: PvRangeConfig, b: PvRangeConfig)
    requires PvMaxText(a) == PvMaxText(b)
    ensures a.max == b.max
    ensures a.max.Some? ==> Flag(a.inclMax) == Flag(b.inclMax)
  {
    MaxOpenIff(a);
    MaxOpenIff(b);
    if a.max.Some? {
      var t := PvMaxText(a);
      assert IntToString(a.max.value) == t[..|t| - 1] == IntToString(b.max.value);
      IntToStringInjective(a.max.value, b.max.value);
    }
  }

  /** The path ends with the label, and is the bare label exactly when no
      datapoint name is known. */
  lemma FullPathShape(dpName: Option<string>, treeLabel: string)
    ensures var p := FullPath(dpName, treeLabel);
            |p| >= |treeLabel| && p[|p| - |treeLabel|..] == treeLabel
            && (p == treeLabel <==> dpName.None? || dpName.value == "")
  {
    var p := FullPath(dpName, treeLabel);
    if dpName.Some? && dpName.value != "" {
      assert p[|p| - |treeLabel|..] == treeLabel;
      assert |p| > |treeLabel|;
    }
  }

  /** A missing element is never confused with a type: "unknown" is not a type name. */
  lemma UnknownIsNoTypeName(d: int)
    ensures TypeNameOf(Some(d)) != TypeNameOf(None)
  {
    OaTypes.NameShape(d);
  }

  /** The characters `toString(16)` writes. */
  const HEX_CHARS: set<char> := {'-', '0', '1', '2', '3', '4', '5', '6', '7', '8', '9', 'a', 'b', 'c', 'd', 'e', 'f'}

  lemma ToUpperHexInjective(x: string, y: string)
    requires forall i :: 0 <= i < |x| ==> x[i] in HEX_CHARS
    requires forall i :: 0 <= i < |y| ==> y[i] in HEX_CHARS
    requires ToUpperCase(x) == ToUpperCase(y)
    ensures x == y
  {
    assert |x| == |y|;
    forall i | 0 <= i < |x| ensures x[i] == y[i] {
      assert ToUpperCase(x)[i] == ToUpperCase(y)[i];
      UpperHexChar(x[i], y[i]);
    }
  }

  lemma UpperHexChar(a: char, b: char)
    requires a in HEX_CHARS && b in HEX_CHARS
    requires (if 'a' <= a <= 'z' then (a - 'a' + 'A') else a) == (if 'a' <= b <= 'z' then (b - 'a' + 'A') else b)
    ensures a == b
  {
    assert !('A' <= a <= 'Z') && !('A' <= b <= 'Z');
  }

  lemma HexChars(n: int)
    ensures forall i :: 0 <= i < |IntToRadix(n, 16)| ==> IntToRadix(n, 16)[i] in HEX_CHARS
  {
    var digits := NatToRadix(if n < 0 then -n else n, 16);
    assert forall i :: 0 <= i < |digits| ==> digits[i] in HEX_CHARS by {
      forall i | 0 <= i < |digits| ensures digits[i] in HEX_CHARS {
        assert DigitValue(digits[i]) < 16;
      }
    }
    if n < 0 {
      forall i | 0 <= i < |IntToRadix(n, 16)| ensures IntToRadix(n, 16)[i] in HEX_CHARS {
        if i > 0 { assert IntToRadix(n, 16)[i] == digits[i - 1]; }
      }
    }
  }

  /** Distinct status words give distinct texts: the upper-case hex loses nothing. */
  lemma StatusTextInjective(a: int, b: int)
    requires StatusText(Some(a)) == StatusText(Some(b))
    ensures a == b
  {
    var x, y := IntToRadix(a, 16), IntToRadix(b, 16);
    assert ToUpperCase(x) == StatusText(Some(a))[2..] == ToUpperCase(y);
    HexChars(a);
    HexChars(b);
    ToUpperHexInjective(x, y);
    IntToRadixRoundTrip(a, 16);
    IntToRadixRoundTrip(b, 16);
  }

  lemma StatusExamples()
    ensures StatusText(None) == "0x0"
    ensures StatusText(Some(255)) == "0xFF"
  {
    assert NatToRadix(0, 16) == "0";
    assert NatToRadix(15, 16) == [DigitChar(15)] == "f";
    assert NatToRadix(255, 16) == NatToRadix(15, 16) + [DigitChar(15)] == "ff";
  }

  /** A code outside the table and a code whose label is empty show as the number. */
  lemma LabelFallback(table: map<int, string>, code: int)
    requires forall k :: k in table ==> table[k] != "" && table[k][0] !in NUMERAL_CHARS
    ensures Label(table, code) == IntToString(code) <==> code !in table
    ensures code in table ==> Label(table, code) == table[code]
  {
    NumeralChars(code);
    if code in table {
      assert Label(table, code)[0] == table[code][0];
    }
  }

  lemma TablesHaveWords()
    ensures forall k :: k in CONFIG_TYPES ==> CONFIG_TYPES[k] != "" && CONFIG_TYPES[k][0] !in NUMERAL_CHARS
    ensures forall k :: k in PROC_TYPES ==> PROC_TYPES[k] != "" && PROC_TYPES[k][0] !in NUMERAL_CHARS
    ensures forall k :: k in SMOOTH_TYPES ==> SMOOTH_TYPES[k] != "" && SMOOTH_TYPES[k][0] !in NUMERAL_CHARS
  {
  }

  // ---------- the page ----------

  /** One row of a two-column table: the header and the cell's HTML. */
  datatype Row = Row(header: string, cell: string)

  /** What a section shows below its main table. */
  datatype Extra =
    | NoExtra
    | DetailRows(cells: seq<seq<string>>)
    | DetailTable(rows: seq<Row>)

  datatype Section =
    | NotConfigured(title: string, icon: string)
    | Shown(title: string, icon: string, lead: seq<string>, table: seq<Row>, extra: Extra)

  /** The header: path, type badge, ids, the unit badge and the display name. */
  datatype Header = Header(heading: string, typeBadge: string, dpId: int, elId: int,
                           unitBadge: Option<string>, display: Option<string>)

  datatype Page = Page(title: string, header: Header, sections: seq<Section>)

  const SECTION_TITLES: seq<string> :=
    ["Current Value", "Address", "Alert Handling", "Archive", "PV Range", "Smoothing", "Distribution"]

  /** Current value; `isoTime` stands for the Date formatting of a time in seconds. */
  function LastValueSection(configs: DpeConfigs, isoTime: int -> string): (s: Section)
    ensures s.title == "Current Value"
    ensures s.NotConfigured? <==> configs.lastValue.None?
  {
    if configs.lastValue.None? then NotConfigured("Current Value", "symbol-variable")
    else
      var lv := configs.lastValue.value;
      var timestamp := if lv.originalTime.Some? && lv.originalTime.value != 0 then isoTime(lv.originalTime.value) else "n/a";
      var unit := if configs.unitAndFormat.Some? then OrEmpty(configs.unitAndFormat.value.unit) else "";
      Shown("Current Value", "symbol-variable",
        [EscapeHtml(ValueText(lv.value)) + " " + EscapeHtml(unit), "Last updated: " + EscapeHtml(timestamp)],
        [Row("Status", StatusText(lv.status64)),
         Row("Variable Type", OaTypes.GetTypeName(lv.variableType)),
         Row("Manager ID", IntToString(lv.managerId)),
         Row("User ID", IntToString(lv.userId))],
        NoExtra)
  }

  function AddressSection(configs: DpeConfigs): (s: Section)
    ensures s.title == "Address"
    ensures s.NotConfigured? <==> configs.address.None?
  {
    if configs.address.None? then NotConfigured("Address", "plug")
    else
      var a := configs.address.value;
      Shown("Address", "plug", [],
        [Row("Reference", EscapeHtml(OrEmpty(a.reference))),
         Row("Driver Ident", EscapeHtml(OrEmpty(a.drvIdent))),
         Row("Poll Group", EscapeHtml(OrEmpty(a.pollGroup))),
         Row("Connection", EscapeHtml(OrEmpty(a.connection))),
         Row("Subindex", IntToString(a.subindex)),
         Row("Offset", IntToString(a.offset)),
         Row("Response Mode", IntToString(a.responseMode)),
         Row("Datatype", OaTypes.GetTypeName(a.dataType))],
        NoExtra)
  }

  /** The cells of one alert detail row. */
  function DetailCells(d: AlertHdlDetail): (cells: seq<string>)
    ensures |cells| == 5 && cells[2] == AlertRangeText(d)
  {
    [IntToString(d.detailNr), IntToString(d.rangeType), AlertRangeText(d),
     EscapeHtml(OrEmpty(d.addText)), IntToString(d.classDpId) + ":" + IntToString(d.classElId)]
  }

  function AlertHdlSection(configs: DpeConfigs): (s: Section)
    ensures s.title == "Alert Handling"
    ensures s.NotConfigured? <==> configs.alertHdl.None?
    ensures s.Shown? ==> (s.extra.DetailRows? <==> |configs.alertHdlDetails| > 0)
    ensures s.Shown? && s.extra.DetailRows? ==>
              |s.extra.cells| == |configs.alertHdlDetails|
              && forall i :: 0 <= i < |s.extra.cells| ==> s.extra.cells[i] == DetailCells(configs.alertHdlDetails[i])
  {
    if configs.alertHdl.None? then NotConfigured("Alert Handling", "bell")
    else
      var ah := configs.alertHdl.value;
      var details := configs.alertHdlDetails;
      Shown("Alert Handling", "bell", [],
        [Row("Status", if Flag(ah.active) then "<span class=\"badge active\">Active</span>"
                       else "<span class=\"badge inactive\">Inactive</span>"),
         Row("Config Type", Label(CONFIG_TYPES, ah.configType)),
         Row("Discrete States", IntToString(ah.discreteStates)),
         Row("Impulse", YesNo(ah.impulse)),
         Row("Min Priority", IntToString(ah.minPrio)),
         Row("Panel", EscapeHtml(OrEmpty(ah.panel))),
         Row("Orig Handler", IntToString(ah.origHdl)),
         Row("Multi-Instance", YesNo(ah.multiInstance))],
        if |details| > 0 then DetailRows(Map(details, DetailCells)) else NoExtra)
  }

  function ArchiveDetailRows(ad: ArchiveDetail): seq<Row> {
    [Row("Processing Type", Label(PROC_TYPES, ad.procType)),
     Row("Interval Type", IntToString(ad.intervType)),
     Row("Interval", IntToString(ad.interv)),
     Row("Round Interval", IntToString(ad.roundInv)),
     Row("Round Value", IntToString(ad.roundVal)),
     Row("Std Type", IntToString(ad.stdType)),
     Row("Std Tolerance", IntToString(ad.stdTol)),
     Row("Std Time", IntToString(ad.stdTime)),
     Row("Class", EscapeHtml(OrEmpty(ad.archiveClass)))]
  }

  function ArchiveSection(configs: DpeConfigs): (s: Section)
    ensures s.title == "Archive"
    ensures s.NotConfigured? <==> configs.archive.None?
    ensures s.Shown? ==> (s.extra.DetailTable? <==> configs.archiveDetail.Some?)
  {
    if configs.archive.None? then NotConfigured("Archive", "archive")
    else
      Shown("Archive", "archive", [],
        [Row("Archive", if Flag(configs.archive.value.archive) then "<span class=\"badge active\">Enabled</span>"
                        else "<span class=\"badge inactive\">Disabled</span>")],
        if configs.archiveDetail.Some? then DetailTable(ArchiveDetailRows(configs.archiveDetail.value)) else NoExtra)
  }

  function PvRangeSection(configs: DpeConfigs): (s: Section)
    ensures s.title == "PV Range"
    ensures s.NotConfigured? <==> configs.pvRange.None?
    ensures s.Shown? ==> (|s.table| == 6 <==> configs.pvRange.value.matchText.Some?)
  {
    if configs.pvRange.None? then NotConfigured("PV Range", "arrow-both")
    else
      var pv := configs.pvRange.value;
      Shown("PV Range", "arrow-both", [],
        [Row("Range", PvRangeText(pv)),
         Row("Config Type", IntToString(pv.configType)),
         Row("Variable Type", OaTypes.GetTypeName(pv.variableType)),
         Row("Ignore Invalid", YesNo(pv.ignorInv)),
         Row("Negate", YesNo(pv.neg))]
        + (if pv.matchText.Some? then [Row("Match", EscapeHtml(pv.matchText.value))] else []),
        NoExtra)
  }

  function SmoothSection(configs: DpeConfigs): (s: Section)
    ensures s.title == "Smoothing"
    ensures s.NotConfigured? <==> configs.smooth.None?
  {
    if configs.smooth.None? then NotConfigured("Smoothing", "pulse")
    else
      var sm := configs.smooth.value;
      Shown("Smoothing", "pulse", [],
        [Row("Type", Label(SMOOTH_TYPES, sm.smoothType)),
         Row("Std Type", IntToString(sm.stdType)),
         Row("Std Time", OrText(sm.stdTime, "n/a")),
         Row("Std Tolerance", OrText(sm.stdTol, "n/a"))],
        NoExtra)
  }

  function DistribSection(configs: DpeConfigs): (s: Section)
    ensures s.title == "Distribution"
    ensures s.NotConfigured? <==> configs.distrib.None?
  {
    if configs.distrib.None? then NotConfigured("Distribution", "server")
    else Shown("Distribution", "server", [], [Row("Driver Number", IntToString(configs.distrib.value.driverNumber))], NoExtra)
  }

  function PageHeader(treeLabel: string, dpId: int, elId: int, dpName: Option<string>,
                      dataType: Option<int>, configs: DpeConfigs): Header {
    Header(EscapeHtml(FullPath(dpName, treeLabel)), EscapeHtml(TypeNameOf(dataType)), dpId, elId,
           if configs.unitAndFormat.Some? then
             Some(EscapeHtml(var u := OrEmpty(configs.unitAndFormat.value.unit); if u == "" then "no unit" else u))
           else None,
           if configs.displayName.Some? then Some(EscapeHtml(configs.displayName.value.text)) else None)
  }

  /** `getHtml` with the panel title `update` sets: the header and the
      seven sections in a fixed order. */
  function RenderPage(treeLabel: string, dpId: int, elId: int, dpName: Option<string>, dataType: Option<int>,
                      configs: DpeConfigs, isoTime: int -> string): (p: Page)
    ensures |p.sections| == 7
    ensures forall i :: 0 <= i < 7 ==> p.sections[i].title == SECTION_TITLES[i]
  {
    Page("Config: " + treeLabel,
      PageHeader(treeLabel, dpId, elId, dpName, dataType, configs),
      [LastValueSection(configs, isoTime), AddressSection(configs), AlertHdlSection(configs),
       ArchiveSection(configs), PvRangeSection(configs), SmoothSection(configs), DistribSection(configs)])
  }

  /** Whether the record behind section `i` (in page order) is absent. */
  function Absent(configs: DpeConfigs, i: nat): bool
    requires i < 7
  {
    if i == 0 then configs.lastValue.None?
    else if i == 1 then configs.address.None?
    else if i == 2 then configs.alertHdl.None?
    else if i == 3 then configs.archive.None?
    else if i == 4 then configs.pvRange.None?
    else if i == 5 then configs.smooth.None?
    else configs.distrib.None?
  }

  // One lemma per page position keeps each proof to the one section it is about.
  lemma LastValueShownIff(treeLabel: string, dpId: int, elId: int, dpName: Option<string>, dataType: Option<int>,
                   configs: DpeConfigs, isoTime: int -> string)
    ensures RenderPage(treeLabel, dpId, elId, dpName, dataType, configs, isoTime).sections[0].NotConfigured? <==> configs.lastValue.None?
  {
  }

  lemma AddressShownIff(treeLabel: string, dpId: int, elId: int, dpName: Option<string>, dataType: Option<int>,
                   configs: DpeConfigs, isoTime: int -> string)
    ensures RenderPage(treeLabel, dpId, elId, dpName, dataType, configs, isoTime).sections[1].NotConfigured? <==> configs.address.None?
  {
  }

  lemma AlertHdlShownIff(treeLabel: string, dpId: int, elId: int, dpName: Option<string>, dataType: Option<int>,
                   configs: DpeConfigs, isoTime: int -> string)
    ensures RenderPage(treeLabel, dpId, elId, dpName, dataType, configs, isoTime).sections[2].NotConfigured? <==> configs.alertHdl.None?
  {
  }

  lemma ArchiveShownIff(treeLabel: string, dpId: int, elId: int, dpName: Option<string>, dataType: Option<int>,
                   configs: DpeConfigs, isoTime: int -> string)
    ensures RenderPage(treeLabel, dpId, elId, dpName, dataType, configs, isoTime).sections[3].NotConfigured? <==> configs.archive.None?
  {
  }

  lemma PvRangeShownIff(treeLabel: string, dpId: int, elId: int, dpName: Option<string>, dataType: Option<int>,
                   configs: DpeConfigs, isoTime: int -> string)
    ensures RenderPage(treeLabel, dpId, elId, dpName, dataType, configs, isoTime).sections[4].NotConfigured? <==> configs.pvRange.None?
  {
  }

  lemma SmoothShownIff(treeLabel: string, dpId: int, elId: int, dpName: Option<string>, dataType: Option<int>,
                   configs: DpeConfigs, isoTime: int -> string)
    ensures RenderPage(treeLabel, dpId, elId, dpName, dataType, configs, isoTime).sections[5].NotConfigured? <==> configs.smooth.None?
  {
  }

  lemma DistribShownIff(treeLabel: string, dpId: int, elId: int, dpName: Option<string>, dataType: Option<int>,
                   configs: DpeConfigs, isoTime: int -> string)
    ensures RenderPage(treeLabel, dpId, elId, dpName, dataType, configs, isoTime).sections[6].NotConfigured? <==> configs.distrib.None?
  {
  }

  /** An absent record shows its section as "not configured", never a failure. */
  lemma SectionEmptyIffAbsent(treeLabel: string, dpId: int, elId: int, dpName: Option<string>, dataType: Option<int>,
                              configs: DpeConfigs, isoTime: int -> string, i: nat)
    requires i < 7
    ensures RenderPage(treeLabel, dpId, elId, dpName, dataType, configs, isoTime).sections[i].NotConfigured? <==> Absent(configs, i)
  {
    if i == 0 { LastValueShownIff(treeLabel, dpId, elId, dpName, dataType, configs, isoTime); }
    else if i == 1 { AddressShownIff(treeLabel, dpId, elId, dpName, dataType, configs, isoTime); }
    else if i == 2 { AlertHdlShownIff(treeLabel, dpId, elId, dpName, dataType, configs, isoTime); }
    else if i == 3 { ArchiveShownIff(treeLabel, dpId, elId, dpName, dataType, configs, isoTime); }
    else if i == 4 { PvRangeShownIff(treeLabel, dpId, elId, dpName, dataType, configs, isoTime); }
    else if i == 5 { SmoothShownIff(treeLabel, dpId, elId, dpName, dataType, configs, isoTime); }
    else { DistribShownIff(treeLabel, dpId, elId, dpName, dataType, configs, isoTime); }
  }

  /** Every section of the page, and the two optional detail parts: the
      alert detail table needs details, the archive detail needs its record. */
  lemma EmptySectionsIffAbsent(treeLabel: string, dpId: int, elId: int, dpName: Option<string>, dataType: Option<int>,
                               configs: DpeConfigs, isoTime: int -> string)
    ensures var s := RenderPage(treeLabel, dpId, elId, dpName, dataType, configs, isoTime).sections;
            (forall i :: 0 <= i < 7 ==> (s[i].NotConfigured? <==> Absent(configs, i)))
            && (s[2].Shown? ==> (s[2].extra.DetailRows? <==> configs.alertHdlDetails != []))
            && (s[3].Shown? ==> (s[3].extra.DetailTable? <==> configs.archiveDetail.Some?))
  {
    var s := RenderPage(treeLabel, dpId, elId, dpName, dataType, configs, isoTime).sections;
    forall i | 0 <= i < 7 ensures s[i].NotConfigured? <==> Absent(configs, i) {
      SectionEmptyIffAbsent(treeLabel, dpId, elId, dpName, dataType, configs, isoTime, i);
    }
    assert s[2] == AlertHdlSection(configs);
    assert s[3] == ArchiveSection(configs);
  }

  /** The panel for one element as `update` builds it from a catalog that
      reports open; `element` and `dpName` are what the element and
      datapoint name lookups return. When the configuration or last-value
      store did not open, `update` throws before building anything. */
  function PanelContent(db: Catalog.SqliteClient, dpId: int, elId: int, treeLabel: string,
                        element: Option<DpElement>, dpName: Option<string>, isoTime: int -> string): (r: Result<Page, string>)
    reads db
    requires db.IsOpen()
    ensures r.Failure? <==> db.configDb.None? || db.lastValueDb.None?
    ensures r.Failure? ==> r.error == "TypeError: Cannot read properties of null (reading 'prepare')"
    ensures r.Success? ==> |r.value.sections| == 7
    ensures r.Success? ==> (r.value.sections[2].NotConfigured? <==> db.GetAlertHdlConfig(dpId, elId).None?)
    ensures r.Success? ==> (r.value.sections[0].NotConfigured? <==> db.GetLastValue(dpId, elId).None?)
    ensures r.Success? ==> r.value.header.typeBadge
                             == EscapeHtml(if element.Some? then OaTypes.GetTypeName(element.value.dataType) else "unknown")
  {
    match db.GatherConfigs(dpId, elId)
    case Failure(e) => Failure(e)
    case Success(configs) =>
      var dataType := if element.Some? then Some(element.value.dataType) else None;
      var page := RenderPage(treeLabel, dpId, elId, dpName, dataType, configs, isoTime);
      SectionEmptyIffAbsent(treeLabel, dpId, elId, dpName, dataType, configs, isoTime, 0);
      SectionEmptyIffAbsent(treeLabel, dpId, elId, dpName, dataType, configs, isoTime, 2);
      Success(page)
  }
}
