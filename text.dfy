/** The JavaScript string operations the admin panel relies on: white space as
    `trim`, `\s` and `parseInt` understand it, `toLowerCase` (on ASCII letters),
    `includes`, `trim`, `parseInt` with its automatic radix, `String(n)` for a
    natural number, and `replace(/\s+/g, "-")`. */
module Text {
  import opened Util

  /** The WhiteSpace and LineTerminator code points of ECMAScript (section 12.2
      and 12.3 of ECMA-262): the set matched by `\s` and removed by `trim`. */
  predicate IsSpace(c: char) {
    || c == '\t' || c == '\n' || c == '\U{000B}' || c == '\U{000C}' || c == '\r'
    || c == ' ' || c == '\U{00A0}' || c == '\U{1680}'
    || ('\U{2000}' <= c <= '\U{200A}')
    || c == '\U{2028}' || c == '\U{2029}' || c == '\U{202F}' || c == '\U{205F}'
    || c == '\U{3000}' || c == '\U{FEFF}'
  }

  ghost predicate NoSpace(s: string) {
    forall i :: 0 <= i < |s| ==> !IsSpace(s[i])
  }

  ghost predicate AllSpace(s: string) {
    forall i :: 0 <= i < |s| ==> IsSpace(s[i])
  }

  function LowerChar(c: char): (d: char)
    ensures 'A' <= c <= 'Z' ==> 'a' <= d <= 'z' && d as int == c as int + 32
    ensures !('A' <= c <= 'Z') ==> d == c
  {
    if 'A' <= c <= 'Z' then (c as int + 32) as char else c
  }

  /** `s.toLowerCase()` on the ASCII letters. */
  function Lower(s: string): (r: string)
    ensures |r| == |s|
    ensures forall i :: 0 <= i < |s| ==> r[i] == LowerChar(s[i])
  {
    seq(|s|, i requires 0 <= i < |s| => LowerChar(s[i]))
  }

  /** `hay.includes(needle)`: the needle occurs as a contiguous block. */
  predicate Contains(hay: string, needle: string) {
    exists i :: 0 <= i <= |hay| - |needle| && needle <= hay[i..]
  }

  /** A leading space followed by spaces up to `k` is all space up to `k`. */
  lemma DropSpaceHead(s: string, k: int)
    requires 0 < k <= |s| && IsSpace(s[0]) && AllSpace(s[1..][..k - 1])
    ensures AllSpace(s[..k]) && s[1..][k - 1..] == s[k..]
  {
    assert forall i :: 1 <= i < k ==> s[i] == s[1..][..k - 1][i - 1];
  }

  /** Spaces from `k` to the last but one, then a trailing space. */
  lemma DropSpaceLast(s: string, k: int)
    requires 0 <= k < |s| && IsSpace(s[|s| - 1]) && AllSpace(s[..|s| - 1][k..])
    ensures AllSpace(s[k..]) && s[..|s| - 1][..k] == s[..k]
  {
    assert forall i :: k <= i < |s| - 1 ==> s[i] == s[..|s| - 1][k..][i - k];
  }

  /** `trimStart`: the suffix left after dropping leading white space. */
  function TrimStart(s: string): (r: string)
    ensures |r| <= |s| && r == s[|s| - |r|..]
    ensures AllSpace(s[..|s| - |r|])
    ensures r == [] || !IsSpace(r[0])
    ensures s != [] && IsSpace(s[0]) ==> |r| < |s|
    decreases |s|
  {
    if s == [] then []
    else if IsSpace(s[0]) then
      var r := TrimStart(s[1..]);
      DropSpaceHead(s, |s| - |r|);
      r
    else s
  }

  /** `trimEnd`: the prefix left after dropping trailing white space. */
  function TrimEnd(s: string): (r: string)
    ensures |r| <= |s| && r == s[..|r|]
    ensures AllSpace(s[|r|..])
    ensures r == [] || !IsSpace(r[|r| - 1])
    decreases |s|
  {
    if s == [] then []
    else if IsSpace(s[|s| - 1]) then
      var r := TrimEnd(s[..|s| - 1]);
      DropSpaceLast(s, |r|);
      r
    else s
  }

  /** `s.trim()`. */
  function Trim(s: string): (r: string)
    ensures |r| <= |s|
    ensures r == [] || (!IsSpace(r[0]) && !IsSpace(r[|r| - 1]))
  {
    TrimEnd(TrimStart(s))
  }

  /** The value of a digit in radices up to 36 (`0`-`9`, then letters of
      either case); 36 for any other character. */
  function DigitValue(c: char): (v: nat)
    ensures v <= 36
  {
    if '0' <= c <= '9' then c as int - '0' as int
    else if 'a' <= c <= 'z' then c as int - 'a' as int + 10
    else if 'A' <= c <= 'Z' then c as int - 'A' as int + 10
    else 36
  }

  /** Length of the longest prefix made of digits of the radix. */
  function DigitRun(s: string, radix: nat): (n: nat)
    ensures n <= |s|
    ensures forall i :: 0 <= i < n ==> DigitValue(s[i]) < radix
    ensures n < |s| ==> DigitValue(s[n]) >= radix
    decreases |s|
  {
    if s == [] || DigitValue(s[0]) >= radix then 0 else 1 + DigitRun(s[1..], radix)
  }

  /** The number a run of digits denotes, most significant digit first. */
  function DigitsValue(ds: string, radix: nat): nat
    decreases |ds|
  {
    if ds == [] then 0
    else DigitsValue(ds[..|ds| - 1], radix) * radix + DigitValue(ds[|ds| - 1])
  }

  /** `Number.parseInt(s)` with no radix: leading white space skipped, one
      optional sign, a `0x`/`0X` prefix selects radix 16, then the longest run
      of digits; `None` stands for `NaN`, when that run is empty. A negative
      zero is just 0 here. */
  function ParseInt(s: string): Option<int> {
    ParseSigned(TrimStart(s))
  }

  /** One optional sign, then the magnitude. */
  function ParseSigned(t: string): Option<int> {
    if |t| > 0 && t[0] == '-' then
      match ParseMagnitude(t[1..])
      case None => None
      case Some(v) => Some(0 - v)
    else if |t| > 0 && t[0] == '+' then
      match ParseMagnitude(t[1..])
      case None => None
      case Some(v) => Some(v)
    else
      match ParseMagnitude(t)
      case None => None
      case Some(v) => Some(v)
  }

  /** The radix prefix and the longest run of digits after it. */
  function ParseMagnitude(u: string): Option<nat> {
    var hex := |u| >= 2 && u[0] == '0' && (u[1] == 'x' || u[1] == 'X');
    var radix := if hex then 16 else 10;
    var body := if hex then u[2..] else u;
    var n := DigitRun(body, radix);
    if n == 0 then None else Some(DigitsValue(body[..n], radix))
  }

  function DecimalDigit(d: nat): (c: char)
    requires d < 10
    ensures DigitValue(c) == d
  {
    ('0' as int + d) as char
  }

  /** `String(n)` for a natural number: its decimal digits, no leading zero. */
  function Decimal(n: nat): (r: string)
    ensures r != []
    decreases n
  {
    if n < 10 then [DecimalDigit(n)] else Decimal(n / 10) + [DecimalDigit(n % 10)]
  }

  /** `list.some((t) => t.toLowerCase().includes(q))` for a lower-cased `q`. */
  predicate SomeIncludes(list: seq<string>, q: string) {
    exists i :: 0 <= i < |list| && Contains(Lower(list[i]), q)
  }

  /** The text before the first `c`: all of `s` when `c` does not occur. */
  function UpTo(s: string, c: char): (r: string)
    ensures r <= s && c !in r
    ensures |r| < |s| ==> s[|r|] == c
    decreases |s|
  {
    if s == [] || s[0] == c then [] else [s[0]] + UpTo(s[1..], c)
  }

  /** The text after the first `c`: empty when `c` does not occur. */
  function After(s: string, c: char): (r: string)
    ensures |r| < |s|  || s == []
  {
    var n := |UpTo(s, c)|;
    if n < |s| then s[n + 1..] else ""
  }

  /** `s.replace(/\s+/g, "-")`: every maximal run of white space becomes one `-`. */
  function CollapseSpaces(s: string): (r: string)
    decreases |s|
  {
    if s == [] then []
    else if IsSpace(s[0]) then "-" + CollapseSpaces(TrimStart(s))
    else [s[0]] + CollapseSpaces(s[1..])
  }

  // ---------------------------------------------------------------- lemmas

  /** Every string includes the empty string, so an empty search query
      matches every field. */
  lemma ContainsEmpty(hay: string)
    ensures Contains(hay, "")
  {
    assert "" <= hay[0..];
  }

  /** `includes` finds a block wherever it sits. */
  lemma ContainsMiddle(a: string, b: string, c: string)
    ensures Contains(a + b + c, b)
  {
    var s := a + b + c;
    assert s[|a|..] == b + c;
  }

  /** Lower-casing is idempotent and leaves white space where it was. */
  lemma LowerIdempotent(s: string)
    ensures Lower(Lower(s)) == Lower(s)
    ensures forall i :: 0 <= i < |s| ==> (IsSpace(Lower(s)[i]) <==> IsSpace(s[i]))
  {
  }

  /** Leading white space followed by a non-space (or nothing) is exactly what
      `trimStart` drops. */
  lemma {:induction false} TrimStartSpaces(sp: string, v: string)
    requires AllSpace(sp)
    requires v == [] || !IsSpace(v[0])
    ensures TrimStart(sp + v) == v
    decreases |sp|
  {
    if sp == [] {
      assert sp + v == v;
    } else {
      assert (sp + v)[1..] == sp[1..] + v;
      TrimStartSpaces(sp[1..], v);
    }
  }

  /** `s` is `r` with the white space `s[..a]` before it and white space
      after it. */
  ghost predicate PaddedAt(s: string, a: int, r: string) {
    && 0 <= a <= |s| - |r|
    && s[a..a + |r|] == r
    && AllSpace(s[..a]) && AllSpace(s[a + |r|..])
  }

  lemma SlicePieces(s: string, t: string, r: string, a: int)
    requires 0 <= a <= |s| && t == s[a..] && |r| <= |t| && r == t[..|r|]
    ensures s[a..a + |r|] == r && s[a + |r|..] == t[|r|..]
  {
  }

  /** `trim` only removes white space: the input is the result padded with
      white space on both sides. */
  lemma TrimDecomposition(s: string)
    ensures exists a :: PaddedAt(s, a, Trim(s))
  {
    var t := TrimStart(s);
    var a := |s| - |t|;
    var r := TrimEnd(t);
    assert r == Trim(s);
    SlicePieces(s, t, r, a);
    assert PaddedAt(s, a, r);
  }

  /** A string with no white space at either end is its own trim. */
  lemma TrimUnpadded(s: string)
    requires s == [] || (!IsSpace(s[0]) && !IsSpace(s[|s| - 1]))
    ensures Trim(s) == s
  {
    if s != [] {
      assert TrimStart(s) == s;
      assert TrimEnd(s) == s;
    }
  }

  /** Trimming twice is trimming once: a trimmed tag stays as it is. */
  lemma TrimIdempotent(s: string)
    ensures Trim(Trim(s)) == Trim(s)
  {
    var t := Trim(s);
    TrimUnpadded(t);
  }

  lemma {:induction false} DecimalDigits(n: nat)
    ensures forall i :: 0 <= i < |Decimal(n)| ==> DigitValue(Decimal(n)[i]) < 10
    decreases n
  {
    if n >= 10 {
      DecimalDigits(n / 10);
    }
  }

  lemma {:induction false} DigitRunAll(s: string, radix: nat)
    requires forall i :: 0 <= i < |s| ==> DigitValue(s[i]) < radix
    ensures DigitRun(s, radix) == |s|
    decreases |s|
  {
    if s != [] {
      DigitRunAll(s[1..], radix);
    }
  }

  lemma {:induction false} DecimalValue(n: nat)
    ensures DigitsValue(Decimal(n), 10) == n
    decreases n
  {
    if n >= 10 {
      var d := Decimal(n);
      assert d[..|d| - 1] == Decimal(n / 10);
      DecimalValue(n / 10);
    }
  }

  /** A decimal run that is not a `0x` prefix is read as a decimal number,
      up to the first character that is not a digit. */
  lemma ParseMagnitudeDecimal(d: string, rest: string)
    requires d != [] && forall i :: 0 <= i < |d| ==> DigitValue(d[i]) < 10
    requires rest == [] || DigitValue(rest[0]) >= 10
    requires |d| == 1 ==> d[0] != '0' || rest == [] || (rest[0] != 'x' && rest[0] != 'X')
    ensures ParseMagnitude(d + rest) == Some(DigitsValue(d, 10))
  {
    var u := d + rest;
    NotHexPrefix(d, rest);
    DigitRunPrefix(d, rest, 10);
    assert u[..|d|] == d;
  }

  /** A decimal run not of the form `0x`, `0X` does not start a hexadecimal
      literal. */
  lemma NotHexPrefix(d: string, rest: string)
    requires d != [] && forall i :: 0 <= i < |d| ==> DigitValue(d[i]) < 10
    requires |d| == 1 ==> d[0] != '0' || rest == [] || (rest[0] != 'x' && rest[0] != 'X')
    ensures !(|d + rest| >= 2 && (d + rest)[0] == '0' && ((d + rest)[1] == 'x' || (d + rest)[1] == 'X'))
  {
    var u := d + rest;
    if |u| >= 2 && u[0] == '0' {
      if |d| >= 2 {
        assert u[1] == d[1];
        DigitIsDecimal(d[1]);
      } else {
        assert u[1] == rest[0];
      }
    }
  }

  /** A character with a decimal digit value is one of `0`-`9`. */
  lemma DigitIsDecimal(c: char)
    requires DigitValue(c) < 10
    ensures '0' <= c <= '9' && !IsSpace(c)
  {
  }

  /** `parseInt(String(n))` gives `n` back: what a number input carries for a
      natural number `n` parses to `n`. */
  lemma ParseDecimal(n: nat)
    ensures ParseInt(Decimal(n)) == Some(n)
  {
    ParseStopsAtNonDigit(n, "");
    assert Decimal(n) + "" == Decimal(n);
  }

  /** Digits are read only up to the first non-digit: `parseInt("42px")` is 42. */
  lemma ParseStopsAtNonDigit(n: nat, rest: string)
    requires rest == [] || (DigitValue(rest[0]) >= 10 && rest[0] != 'x' && rest[0] != 'X')
    ensures ParseInt(Decimal(n) + rest) == Some(n)
  {
    var d := Decimal(n);
    var s := d + rest;
    DecimalDigits(n);
    assert s[0] == d[0];
    DigitIsDecimal(s[0]);
    UnsignedParse(s);
    ParseMagnitudeDecimal(d, rest);
    DecimalValue(n);
  }

  /** Text that starts with neither white space nor a sign is parsed as a
      magnitude. */
  lemma UnsignedParse(s: string)
    requires s != [] && !IsSpace(s[0]) && s[0] != '-' && s[0] != '+'
    ensures ParseMagnitude(s).None? ==> ParseInt(s).None?
    ensures ParseMagnitude(s).Some? ==> ParseInt(s) == Some(ParseMagnitude(s).value as int)
  {
    assert TrimStart(s) == s;
  }

  lemma {:induction false} DigitRunPrefix(d: string, rest: string, radix: nat)
    requires forall i :: 0 <= i < |d| ==> DigitValue(d[i]) < radix
    requires rest == [] || DigitValue(rest[0]) >= radix
    ensures DigitRun(d + rest, radix) == |d|
    decreases |d|
  {
    if d == [] {
      assert d + rest == rest;
    } else {
      assert (d + rest)[1..] == d[1..] + rest;
      DigitRunPrefix(d[1..], rest, radix);
    }
  }

  /** The collapsed string holds no white space at all. */
  lemma {:induction false} CollapseHasNoSpace(s: string)
    ensures NoSpace(CollapseSpaces(s))
    ensures |CollapseSpaces(s)| <= |s|
    decreases |s|
  {
    if s != [] {
      if IsSpace(s[0]) {
        var t := TrimStart(s);
        CollapseHasNoSpace(t);
        NoSpaceCons('-', CollapseSpaces(t));
      } else {
        CollapseHasNoSpace(s[1..]);
        NoSpaceCons(s[0], CollapseSpaces(s[1..]));
      }
    }
  }

  lemma NoSpaceCons(c: char, s: string)
    requires !IsSpace(c) && NoSpace(s)
    ensures NoSpace([c] + s)
  {
    assert forall i :: 1 <= i < |s| + 1 ==> ([c] + s)[i] == s[i - 1];
  }

  /** A string without white space is left exactly as it is. */
  lemma {:induction false} CollapseIdentity(s: string)
    requires NoSpace(s)
    ensures CollapseSpaces(s) == s
    decreases |s|
  {
    if s != [] {
      CollapseIdentity(s[1..]);
    }
  }

  /** A maximal white-space run between two words becomes a single `-`, and
      the text before it is kept character for character. */
  lemma {:induction false} CollapseRun(u: string, sp: string, v: string)
    requires NoSpace(u)
    requires sp != [] && AllSpace(sp)
    requires v == [] || !IsSpace(v[0])
    ensures CollapseSpaces(u + sp + v) == u + "-" + CollapseSpaces(v)
    decreases |u|
  {
    if u == [] {
      assert u + sp + v == sp + v;
      TrimStartSpaces(sp, v);
    } else {
      assert (u + sp + v)[0] == u[0];
      assert (u + sp + v)[1..] == u[1..] + sp + v;
      CollapseRun(u[1..], sp, v);
    }
  }

  /** The first piece ends at the first separator, whatever follows it. */
  lemma {:induction false} UpToPrefix(a: string, rest: string, c: char)
    requires c !in a
    requires rest == [] || rest[0] == c
    ensures UpTo(a + rest, c) == a
    decreases |a|
  {
    if a == [] {
      assert a + rest == rest;
    } else {
      assert (a + rest)[0] == a[0] && (a + rest)[1..] == a[1..] + rest;
      UpToPrefix(a[1..], rest, c);
    }
  }

  /** `(a + c + b).split(c)` starts with `a`, and what follows the first
      separator is `b`. */
  lemma SplitAtFirst(a: string, c: char, b: string)
    requires c !in a
    ensures UpTo(a + [c] + b, c) == a
    ensures After(a + [c] + b, c) == b
  {
    assert a + [c] + b == a + ([c] + b);
    UpToPrefix(a, [c] + b, c);
  }

  /** A character that is neither white space nor the `-` a run turns into. */
  predicate Solid(c: char) {
    !IsSpace(c) && c != '-'
  }

  /** Collapsing only rewrites white space: the other characters, apart
      from `-`, are kept, in order. */
  lemma {:induction false} CollapseKeepsSolid(s: string)
    ensures Filter(CollapseSpaces(s), Solid) == Filter(s, Solid)
    decreases |s|
  {
    if s != [] {
      if IsSpace(s[0]) {
        var t := TrimStart(s);
        var k := |s| - |t|;
        assert s == s[..k] + t;
        FilterAppend(s[..k], t, Solid);
        FilterNone(s[..k], Solid);
        FilterAppend("-", CollapseSpaces(t), Solid);
        CollapseKeepsSolid(t);
      } else {
        assert s == [s[0]] + s[1..];
        FilterAppend([s[0]], s[1..], Solid);
        FilterAppend([s[0]], CollapseSpaces(s[1..]), Solid);
        CollapseKeepsSolid(s[1..]);
      }
    }
  }

  lemma LowerSplit(s: string)
    requires s != []
    ensures Lower(s) == [LowerChar(s[0])] + Lower(s[1..])
  {
  }

  lemma LowerCons(c: char, s: string)
    ensures Lower([c] + s) == [LowerChar(c)] + Lower(s)
  {
    LowerSplit([c] + s);
    assert ([c] + s)[1..] == s;
  }

  lemma LowerAppend(a: string, b: string)
    ensures Lower(a + b) == Lower(a) + Lower(b)
  {
  }

  lemma LowerCharSolid(c: char)
    ensures Solid(LowerChar(c)) == Solid(c)
  {
  }

  /** Lower-casing and picking out the solid characters commute. */
  lemma {:induction false} LowerKeepsSolid(s: string)
    ensures Filter(Lower(s), Solid) == Lower(Filter(s, Solid))
    decreases |s|
  {
    if s != [] {
      var c, t := s[0], s[1..];
      assert s == [c] + t;
      LowerCons(c, t);
      LowerCharSolid(c);
      FilterCons(LowerChar(c), Lower(t), Solid);
      FilterCons(c, t, Solid);
      LowerKeepsSolid(t);
      if Solid(c) {
        LowerCons(c, Filter(t, Solid));
      }
    }
  }
}
