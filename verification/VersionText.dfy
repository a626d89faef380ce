/** The firmware version text: `a.b.c` read by the device, written again by the host. */
module VersionText {
  import opened Bytes
  import opened Esp

  const DOT: byte := 0x2E

  predicate IsDigit(b: byte) { 0x30 <= b <= 0x39 }

  datatype Component = Component(value: byte, next: nat)

  /** The digits from `i` on, folded into `parsed`; nothing once the value leaves a byte. */
  function Digits(s: seq<byte>, i: nat, parsed: byte): Option<Component>
    decreases |s| - i
  {
    if i < |s| && IsDigit(s[i]) then
      var next := parsed * 10 + (s[i] - 0x30);
      if next > 0xFF then None else Digits(s, i + 1, next)
    else Some(Component(parsed, i))
  }

  function ParseComponent(s: seq<byte>, i: nat): Option<Component>
  {
    if i < |s| && IsDigit(s[i]) then Digits(s, i, 0) else None
  }

  /** `parse_version_component`. */
  method ParseVersionComponent(s: seq<byte>, cursor: nat) returns (component: Option<Component>)
    ensures component == ParseComponent(s, cursor)
  {
    if cursor >= |s| || !IsDigit(s[cursor]) {
      return None;
    }
    var parsed: int := 0;
    var i := cursor;
    while i < |s| && IsDigit(s[i])
      invariant 0 <= parsed <= 0xFF
      invariant Digits(s, i, parsed) == Digits(s, cursor, 0)
      decreases |s| - i
    {
      parsed := parsed * 10 + (s[i] - 0x30);
      if parsed > 0xFF {
        return None;
      }
      i := i + 1;
    }
    return Some(Component(parsed, i));
  }

  datatype Version = Version(major: byte, minor: byte, patch: byte)

  /** `parse_app_version`: zeros for anything that does not start with three dotted components. */
  function ParseAppVersion(text: seq<byte>): Version
  {
    var start := if |text| > 0 && (text[0] == 0x76 || text[0] == 0x56) then 1 else 0;
    var zero := Version(0, 0, 0);
    var a := ParseComponent(text, start);
    if a.None? || !DotAt(text, a.value.next) then zero
    else
      var b := ParseComponent(text, a.value.next + 1);
      if b.None? || !DotAt(text, b.value.next) then zero
      else
        var c := ParseComponent(text, b.value.next + 1);
        if c.None? then zero else Version(a.value.value, b.value.value, c.value.value)
  }

  /** `parse_app_version`, with its cursor. */
  method ParseVersion(text: seq<byte>) returns (version: Version)
    ensures version == ParseAppVersion(text)
  {
    hide ParseComponent;
    version := Version(0, 0, 0);
    var cursor := 0;
    if |text| > 0 && (text[0] == 0x76 || text[0] == 0x56) {
      cursor := 1;
    }
    var major := ParseVersionComponent(text, cursor);
    if major.None? || !DotAt(text, major.value.next) {
      return;
    }
    cursor := major.value.next + 1;
    var minor := ParseVersionComponent(text, cursor);
    if minor.None? || !DotAt(text, minor.value.next) {
      return;
    }
    cursor := minor.value.next + 1;
    var patch := ParseVersionComponent(text, cursor);
    if patch.None? {
      return;
    }
    return Version(major.value.value, minor.value.value, patch.value.value);
  }

  predicate AllDigits(s: seq<byte>) { forall i | 0 <= i < |s| :: IsDigit(s[i]) }

  /** The number that decimal digits stand for. */
  function Numeral(s: seq<byte>): nat
    requires AllDigits(s)
  {
    if s == [] then 0 else 10 * Numeral(s[..|s| - 1]) + (s[|s| - 1] - 0x30)
  }

  /** Where the digits from `i` on end. */
  function DigitsEnd(s: seq<byte>, i: nat): (end: nat)
    requires i <= |s|
    ensures i <= end <= |s| && AllDigits(s[i..end]) && (end == |s| || !IsDigit(s[end]))
    decreases |s| - i
  {
    if i < |s| && IsDigit(s[i]) then
      var end := DigitsEnd(s, i + 1);
      assert s[i..end] == [s[i]] + s[i + 1..end];
      end
    else i
  }

  lemma {:induction false} NumeralGrows(s: seq<byte>, k: nat)
    requires AllDigits(s) && k <= |s|
    ensures AllDigits(s[..k]) && Numeral(s[..k]) <= Numeral(s)
    decreases |s|
  {
    if k < |s| {
      var most := s[..|s| - 1];
      assert most[..k] == s[..k];
      NumeralGrows(most, k);
    } else {
      assert s[..k] == s;
    }
  }

  /** One more digit. */
  lemma NumeralPush(s: seq<byte>, i: nat, k: nat, end: nat)
    requires i <= k < end <= |s| && AllDigits(s[i..end])
    ensures IsDigit(s[k]) && AllDigits(s[i..k]) && AllDigits(s[i..k + 1])
    ensures Numeral(s[i..k + 1]) == 10 * Numeral(s[i..k]) + (s[k] - 0x30)
    ensures Numeral(s[i..k + 1]) <= Numeral(s[i..end])
  {
    assert s[i..end][k - i] == s[k];
    assert s[i..end][..k + 1 - i] == s[i..k + 1] && s[i..k + 1][..k - i] == s[i..k];
    NumeralGrows(s[i..end], k + 1 - i);
    NumeralGrows(s[i..k + 1], k - i);
  }

  /** The digit loop from a point within the digits. */
  lemma {:induction false} DigitsFold(s: seq<byte>, i: nat, k: nat, end: nat, parsed: byte)
    requires i <= k <= end <= |s| && AllDigits(s[i..end]) && (end == |s| || !IsDigit(s[end]))
    requires AllDigits(s[i..k]) && parsed == Numeral(s[i..k])
    ensures var n := Numeral(s[i..end]); Digits(s, k, parsed) == if n > 255 then None else Some(Component(n, end))
    decreases |s| - k
  {
    hide Numeral, AllDigits;
    if k < end {
      NumeralPush(s, i, k, end);
      if Numeral(s[i..k + 1]) <= 255 { DigitsFold(s, i, k + 1, end, Numeral(s[i..k + 1])); }
    }
  }

  /** A component is the number of all the digits that stand there, if there are any and it is at most 255. */
  lemma ComponentExactly(s: seq<byte>, i: nat)
    requires i <= |s|
    ensures var end := DigitsEnd(s, i); var n := Numeral(s[i..end]);
      ParseComponent(s, i) == if end == i || n > 255 then None else Some(Component(n, end))
  {
    assert s[i..i] == [];
    DigitsFold(s, i, i, DigitsEnd(s, i), 0);
  }

  lemma EndsHere(s: seq<byte>, i: nat, end: nat)
    requires i <= end <= |s| && AllDigits(s[i..end]) && (end == |s| || !IsDigit(s[end]))
    ensures DigitsEnd(s, i) == end
  {
    var e := DigitsEnd(s, i);
    if e < end { DigitInside(s, i, end, e); }
    if end < e { DigitInside(s, i, e, end); }
  }

  lemma DigitInside(s: seq<byte>, i: nat, end: nat, k: nat)
    requires i <= k < end <= |s| && AllDigits(s[i..end])
    ensures IsDigit(s[k])
  {
    assert s[i..end][k - i] == s[k];
  }

  /**
   * Three components of at most 255 with a dot behind the first two, perhaps behind a
   * `v`, and no digit behind them: they end at `i`, `j` and `k`.
   */
  predicate Dotted(text: seq<byte>, start: nat, i: nat, j: nat, k: nat)
  {
    && start <= 1 && start < i && i + 1 < j && j + 1 < k <= |text|
    && (if start == 1 then text[0] == 0x76 || text[0] == 0x56 else true)
    && text[i] == DOT && text[j] == DOT && (k == |text| || !IsDigit(text[k]))
    && IsComponent(text[start..i]) && IsComponent(text[i + 1..j]) && IsComponent(text[j + 1..k])
  }

  predicate IsComponent(s: seq<byte>) { AllDigits(s) && Numeral(s) <= 255 }

  /** The version such a text stands for. */
  function Denoted(text: seq<byte>, start: nat, i: nat, j: nat, k: nat): Version
    requires Dotted(text, start, i, j, k)
  {
    Version(Numeral(text[start..i]), Numeral(text[i + 1..j]), Numeral(text[j + 1..k]))
  }

  /** A component where its digits are known to stand and to end. */
  lemma ComponentHere(text: seq<byte>, i: nat, end: nat)
    requires i < end <= |text| && IsComponent(text[i..end]) && (end == |text| || !IsDigit(text[end]))
    ensures ParseComponent(text, i) == Some(Component(Numeral(text[i..end]), end)) && IsDigit(text[i])
  {
    hide Numeral, ParseComponent, IsDigit;
    EndsHere(text, i, end);
    ComponentExactly(text, i);
    DigitInside(text, i, end, i);
  }

  /** Every such text is read as its three numbers, leading zeros or not. */
  lemma DottedIsRead(text: seq<byte>, start: nat, i: nat, j: nat, k: nat)
    requires Dotted(text, start, i, j, k)
    ensures ParseAppVersion(text) == Denoted(text, start, i, j, k)
  {
    hide ParseComponent, Numeral, AllDigits;
    ComponentHere(text, start, i);
    ComponentHere(text, i + 1, j);
    ComponentHere(text, j + 1, k);
  }

  lemma ComponentParts(s: seq<byte>, i: nat)
    requires i <= |s| && ParseComponent(s, i).Some?
    ensures var x := ParseComponent(s, i).value;
      && i < x.next <= |s| && IsComponent(s[i..x.next]) && Numeral(s[i..x.next]) == x.value
      && (x.next == |s| || !IsDigit(s[x.next]))
  {
    ComponentExactly(s, i);
  }

  /** And what is read as anything but zeros is such a text: a missing or too large component gives zeros. */
  lemma ReadIsDotted(text: seq<byte>) returns (start: nat, i: nat, j: nat, k: nat)
    requires ParseAppVersion(text) != Version(0, 0, 0)
    ensures Dotted(text, start, i, j, k) && ParseAppVersion(text) == Denoted(text, start, i, j, k)
  {
    hide ParseComponent, Numeral, AllDigits;
    start := if |text| > 0 && (text[0] == 0x76 || text[0] == 0x56) then 1 else 0;
    ComponentParts(text, start);
    i := ParseComponent(text, start).value.next;
    ComponentParts(text, i + 1);
    j := ParseComponent(text, i + 1).value.next;
    ComponentParts(text, j + 1);
    k := ParseComponent(text, j + 1).value.next;
  }

  predicate DotAt(s: seq<byte>, i: nat) { i < |s| && s[i] == DOT }

  /** Decimal digits without leading zeros. */
  function Decimal(n: nat): (s: seq<byte>)
    ensures |s| > 0 && forall i | 0 <= i < |s| :: IsDigit(s[i])
  {
    if n < 10 then [0x30 + n] else Decimal(n / 10) + [0x30 + n % 10]
  }

  /** The shortest text of the number: no zero in front of another digit. */
  lemma {:induction false} DecimalIsShortest(n: nat)
    ensures AllDigits(Decimal(n)) && Numeral(Decimal(n)) == n
    ensures Decimal(n)[0] == 0x30 ==> n == 0 && Decimal(n) == [0x30]
    decreases n
  {
    var s := Decimal(n);
    if n >= 10 {
      DecimalIsShortest(n / 10);
      assert s[..|s| - 1] == Decimal(n / 10);
    } else {
      assert s[..0] == [];
    }
  }

  /** The host's `f"{major}.{minor}.{patch}"`. */
  function Firmware(v: Version): seq<byte>
  {
    Decimal(v.major) + [DOT] + Decimal(v.minor) + [DOT] + Decimal(v.patch)
  }

  lemma {:induction false} DigitsOfDecimal(s: seq<byte>, i: nat, n: byte)
    requires i + |Decimal(n)| <= |s| && s[i..i + |Decimal(n)|] == Decimal(n)
    ensures Digits(s, i, 0) == Digits(s, i + |Decimal(n)|, n)
  {
    var k := |Decimal(n)|;
    var t := s[i..i + k];
    assert s[i + k - 1] == t[k - 1];
    if n >= 10 {
      assert t[..k - 1] == Decimal(n / 10) == s[i..i + (k - 1)];
      DigitsOfDecimal(s, i, n / 10);
    }
  }

  /** A component of at most 255 followed by anything but a digit is read back. */
  lemma ComponentRoundTrip(before: seq<byte>, n: byte, after: seq<byte>)
    requires after == [] || !IsDigit(after[0])
    ensures ParseComponent(before + Decimal(n) + after, |before|) == Some(Component(n, |before| + |Decimal(n)|))
  {
    var s, i, d := before + Decimal(n) + after, |before|, Decimal(n);
    hide Decimal;
    assert s[i..i + |d|] == d;
    DigitsOfDecimal(s, i, n);
    assert s[i] == d[0] && (after != [] ==> s[i + |d|] == after[0]);
  }

  lemma Regroup(p: seq<byte>, a: seq<byte>, b: seq<byte>, c: seq<byte>, rest: seq<byte>)
    ensures var text := p + (a + [DOT] + b + [DOT] + c) + rest;
      && text == p + a + ([DOT] + (b + ([DOT] + (c + rest))))
      && text == (p + a + [DOT]) + b + ([DOT] + (c + rest))
      && text == (p + a + [DOT] + b + [DOT]) + c + rest
  {
  }

  lemma DotAfter(before: seq<byte>, after: seq<byte>)
    ensures DotAt(before + ([DOT] + after), |before|)
  {
  }

  /** A component and the dot behind it. */
  lemma DottedComponent(text: seq<byte>, before: seq<byte>, n: byte, after: seq<byte>)
    requires text == before + Decimal(n) + ([DOT] + after)
    ensures var i := |before| + |Decimal(n)|;
      ParseComponent(text, |before|) == Some(Component(n, i)) && DotAt(text, i)
  {
    hide Decimal, ParseComponent;
    ComponentRoundTrip(before, n, [DOT] + after);
    DotAfter(before + Decimal(n), after);
  }

  lemma FirstCharacter(prefix: seq<byte>, n: byte, rest: seq<byte>)
    ensures var s := prefix + Decimal(n) + rest; s[0] == if prefix == [] then Decimal(n)[0] else prefix[0]
  {
    hide Decimal;
  }

  /**
   * A canonical version text, with or without a leading `v`, whatever non-digit
   * follows it, reappears as the host's firmware string.
   */
  lemma VersionRoundTrip(v: Version, prefix: seq<byte>, rest: seq<byte>)
    requires prefix == [] || prefix == [0x76] || prefix == [0x56]
    requires rest == [] || !IsDigit(rest[0])
    ensures ParseAppVersion(prefix + Firmware(v) + rest) == v
  {
    hide Decimal, ParseComponent, DotAt;
    var a, b, c := Decimal(v.major), Decimal(v.minor), Decimal(v.patch);
    var text := prefix + Firmware(v) + rest;
    Regroup(prefix, a, b, c, rest);
    DottedComponent(text, prefix, v.major, b + ([DOT] + (c + rest)));
    DottedComponent(text, prefix + a + [DOT], v.minor, c + rest);
    ComponentRoundTrip(prefix + a + [DOT] + b + [DOT], v.patch, rest);
    FirstCharacter(prefix, v.major, [DOT] + (b + ([DOT] + (c + rest))));
  }
}
