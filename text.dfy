/**
 * The pieces of Python's `str` behaviour that the catalog code relies on:
 * `strip()`, `sep.join(xs)`, `s.split(c)`, `str(n)` for integers and
 * `int(s)` for strings.
 */
module Text {
  import opened Wrappers

  /** Python's `str.isspace` set, which `strip()` removes from both ends. */
  predicate IsSpace(c: char) {
    c == ' ' || c == '\t' || c == '\n' || c == '\r' || c == '\U{0B}' || c == '\U{0C}'
    || ('\U{1C}' <= c <= '\U{1F}') || c == '\U{85}' || c == '\U{A0}' || c == '\U{1680}'
    || ('\U{2000}' <= c <= '\U{200A}') || c == '\U{2028}' || c == '\U{2029}'
    || c == '\U{202F}' || c == '\U{205F}' || c == '\U{3000}'
  }

  /** Neither end of `s` is whitespace: what `strip()` leaves behind. */
  predicate Stripped(s: string) {
    s == [] || (!IsSpace(s[0]) && !IsSpace(s[|s| - 1]))
  }

  /** `s.lstrip()`: drops the leading whitespace. */
  function TrimStart(s: string): (r: string)
    ensures |r| <= |s|
    ensures r != [] ==> !IsSpace(r[0])
  {
    if s != [] && IsSpace(s[0]) then TrimStart(s[1..]) else s
  }

  /** `s.rstrip()`: drops the trailing whitespace. */
  function TrimEnd(s: string): (r: string)
    ensures |r| <= |s|
    ensures r != [] ==> !IsSpace(r[|r| - 1])
  {
    if s != [] && IsSpace(s[|s| - 1]) then TrimEnd(s[..|s| - 1]) else s
  }

  /** `lstrip()` keeps a suffix of `s` and removes only whitespace. */
  lemma {:induction false} TrimStartSuffix(s: string)
    ensures TrimStart(s) == s[|s| - |TrimStart(s)|..]
    ensures forall i :: 0 <= i < |s| - |TrimStart(s)| ==> IsSpace(s[i])
  {
    if s != [] && IsSpace(s[0]) {
      TrimStartSuffix(s[1..]);
    }
  }

  /** `rstrip()` keeps a prefix of `s` and removes only whitespace. */
  lemma {:induction false} TrimEndPrefix(s: string)
    ensures TrimEnd(s) == s[..|TrimEnd(s)|]
    ensures forall i :: |TrimEnd(s)| <= i < |s| ==> IsSpace(s[i])
  {
    if s != [] && IsSpace(s[|s| - 1]) {
      TrimEndPrefix(s[..|s| - 1]);
    }
  }

  /** `r` is `s[i..i + |r|]` and only whitespace of `s` lies outside that slice. */
  predicate SliceAmidSpace(s: string, r: string, i: int) {
    0 <= i <= |s| - |r| && r == s[i..i + |r|]
    && (forall k :: 0 <= k < i ==> IsSpace(s[k]))
    && (forall k :: i + |r| <= k < |s| ==> IsSpace(s[k]))
  }

  /** `s.strip()`: `rstrip()` after `lstrip()`. */
  function Strip(s: string): string {
    TrimEnd(TrimStart(s))
  }

  /** `strip()` leaves no whitespace at either end. */
  lemma StripStrippedResult(s: string)
    ensures Stripped(Strip(s))
  {
    var t := TrimStart(s);
    TrimEndPrefix(t);
  }

  /** What `strip()` removes is whitespace at the two ends and nothing else. */
  lemma StripIsSlice(s: string)
    ensures exists i :: SliceAmidSpace(s, Strip(s), i)
  {
    var i := |s| - |TrimStart(s)|;
    StripKept(s);
    TrimStartSuffix(s);
    StripTrailing(s);
    assert SliceAmidSpace(s, Strip(s), i);
  }

  /** `strip()` keeps `s[i..i + n]`, where `i` is where `lstrip()` stops. */
  lemma StripKept(s: string)
    ensures var i := |s| - |TrimStart(s)|;
            i + |Strip(s)| <= |s| && Strip(s) == s[i..i + |Strip(s)|]
  {
    var t := TrimStart(s);
    TrimStartSuffix(s);
    TrimEndPrefix(t);
  }

  /** Everything after the kept slice is the whitespace removed by `rstrip()`. */
  lemma StripTrailing(s: string)
    ensures forall k :: |s| - |TrimStart(s)| + |Strip(s)| <= k < |s| ==> IsSpace(s[k])
  {
    var t := TrimStart(s);
    var i := |s| - |t|;
    TrimStartSuffix(s);
    TrimEndPrefix(t);
    forall k | i + |Strip(s)| <= k < |s|
      ensures IsSpace(s[k])
    {
      assert s[k] == t[k - i];
    }
  }

  /** Stripping an already stripped string changes nothing. */
  lemma {:induction false} StripStripped(s: string)
    requires Stripped(s)
    ensures Strip(s) == s
  {
  }

  /** `strip()` is idempotent. */
  lemma {:induction false} StripIdempotent(s: string)
    ensures Strip(Strip(s)) == Strip(s)
  {
    StripStrippedResult(s);
    StripStripped(Strip(s));
  }

  /** One extra leading space before a stripped string is removed by `strip()`. */
  lemma {:induction false} StripLeadingSpace(k: string)
    requires Stripped(k)
    ensures Strip(" " + k) == k
  {
    assert (" " + k)[1..] == k;
    assert TrimStart(" " + k) == TrimStart(k);
    StripStripped(k);
  }

  /** `strip()` only removes characters, so a character absent from `s` is absent from the result. */
  lemma StripKeepsAbsent(s: string, c: char)
    requires c !in s
    ensures c !in Strip(s)
  {
    var r := Strip(s);
    StripIsSlice(s);
    var i :| SliceAmidSpace(s, r, i);
    assert forall m :: 0 <= m < |r| ==> r[m] == s[i + m];
  }

  /** The stripped pieces of `s.split(c)`: one per separator plus one, stripped and separator-free. */
  lemma StripSplitPieces(s: string, c: char)
    ensures |StripAll(Split(s, c))| == Count(s, c) + 1
    ensures forall i :: 0 <= i < |StripAll(Split(s, c))| ==>
              Stripped(StripAll(Split(s, c))[i]) && c !in StripAll(Split(s, c))[i]
  {
    var pieces := Split(s, c);
    var r := StripAll(pieces);
    SplitPieces(s, c);
    forall i | 0 <= i < |r|
      ensures Stripped(r[i]) && c !in r[i]
    {
      StripAllAt(pieces, i);
      StripStrippedResult(pieces[i]);
      StripKeepsAbsent(pieces[i], c);
    }
  }

  /** `[x.strip() for x in xs]` */
  function StripAll(xs: seq<string>): (r: seq<string>)
    ensures |r| == |xs|
  {
    if xs == [] then [] else [Strip(xs[0])] + StripAll(xs[1..])
  }

  /** The i-th element of `[x.strip() for x in xs]` is `xs[i].strip()`. */
  lemma {:induction false} StripAllAt(xs: seq<string>, i: int)
    requires 0 <= i < |xs|
    ensures StripAll(xs)[i] == Strip(xs[i])
  {
    if i > 0 {
      StripAllAt(xs[1..], i - 1);
    }
  }

  /** `sep.join(xs)` */
  function Join(sep: string, xs: seq<string>): string {
    if |xs| == 0 then "" else if |xs| == 1 then xs[0] else xs[0] + sep + Join(sep, xs[1..])
  }

  /** Number of occurrences of `c` in `s` (Python's `s.count(c)`). */
  function Count(s: string, c: char): (n: nat)
    ensures n <= |s|
    ensures n == 0 <==> c !in s
  {
    if s == [] then 0 else (if s[0] == c then 1 else 0) + Count(s[1..], c)
  }

  /** `s.split(c)` for a one-character separator; empty pieces are kept. */
  function Split(s: string, c: char): seq<string> {
    if s == [] then [""]
    else
      var rest := Split(s[1..], c);
      if s[0] == c then [""] + rest else [[s[0]] + rest[0]] + rest[1..]
  }

  /**
   * `s.split(c)` has one more piece than `s` has separators, and no piece
   * contains the separator.
   */
  lemma {:induction false} SplitPieces(s: string, c: char)
    ensures |Split(s, c)| == Count(s, c) + 1
    ensures forall i :: 0 <= i < |Split(s, c)| ==> c !in Split(s, c)[i]
  {
    if s != [] {
      SplitPieces(s[1..], c);
      var rest := Split(s[1..], c);
      if s[0] != c {
        var r := Split(s, c);
        forall i | 0 <= i < |r|
          ensures c !in r[i]
        {
          if i > 0 {
            assert r[i] == rest[i];
          }
        }
      }
    }
  }

  /** Joining the pieces of `s.split(c)` with `c` gives back `s`. */
  lemma {:induction false} JoinSplit(s: string, c: char)
    ensures Join([c], Split(s, c)) == s
  {
    if s != [] {
      JoinSplit(s[1..], c);
      var rest := Split(s[1..], c);
      if s[0] == c {
        assert s == [c] + s[1..];
      } else {
        var r := Split(s, c);
        assert r[0] == [s[0]] + rest[0] && r[1..] == rest[1..];
        if |rest| == 1 {
          assert s == [s[0]] + rest[0];
        } else {
          assert s[1..] == rest[0] + [c] + Join([c], rest[1..]);
          assert s == [s[0]] + s[1..];
        }
      }
    }
  }

  /** Splitting a piece free of the separator, followed by more text. */
  lemma {:induction false} SplitAfterPiece(x: string, c: char, rest: string)
    requires c !in x
    ensures Split(x + [c] + rest, c) == [x] + Split(rest, c)
  {
    var s := x + [c] + rest;
    if x == [] {
      assert s[0] == c && s[1..] == rest;
    } else {
      assert s[0] == x[0] && s[1..] == x[1..] + [c] + rest;
      SplitAfterPiece(x[1..], c, rest);
      assert [x[0]] + x[1..] == x;
    }
  }

  /** Splitting a string without the separator gives it back as the only piece. */
  lemma {:induction false} SplitNoSeparator(x: string, c: char)
    requires c !in x
    ensures Split(x, c) == [x]
  {
    if x != [] {
      SplitNoSeparator(x[1..], c);
      assert [x[0]] + x[1..] == x;
    }
  }

  /** `c.join` followed by `split(c)` gives back a non-empty list of separator-free pieces. */
  lemma {:induction false} SplitJoin(xs: seq<string>, c: char)
    requires |xs| > 0
    requires forall i :: 0 <= i < |xs| ==> c !in xs[i]
    ensures Split(Join([c], xs), c) == xs
  {
    if |xs| == 1 {
      SplitNoSeparator(xs[0], c);
    } else {
      SplitJoin(xs[1..], c);
      SplitAfterPiece(xs[0], c, Join([c], xs[1..]));
      assert [xs[0]] + xs[1..] == xs;
    }
  }

  /** `",".join` of space-prefixed pieces is a space followed by their `", ".join`. */
  lemma {:induction false} JoinSpacePrefixed(ys: seq<string>)
    requires |ys| > 0
    ensures Join(",", SpacePrefixed(ys)) == " " + Join(", ", ys)
  {
    if |ys| > 1 {
      JoinSpacePrefixed(ys[1..]);
      assert SpacePrefixed(ys)[1..] == SpacePrefixed(ys[1..]);
    }
  }

  /** `", ".join(xs)` is `",".join` of the same pieces with a space put before all but the first. */
  lemma {:induction false} JoinCommaSpace(xs: seq<string>)
    requires |xs| > 0
    ensures Join(", ", xs) == Join(",", [xs[0]] + SpacePrefixed(xs[1..]))
  {
    if |xs| > 1 {
      JoinSpacePrefixed(xs[1..]);
      assert ([xs[0]] + SpacePrefixed(xs[1..]))[1..] == SpacePrefixed(xs[1..]);
    }
  }

  /** `[" " + x for x in xs]` */
  function SpacePrefixed(xs: seq<string>): (r: seq<string>)
    ensures |r| == |xs|
    ensures forall i :: 0 <= i < |xs| ==> r[i] == " " + xs[i]
  {
    seq(|xs|, i requires 0 <= i < |xs| => " " + xs[i])
  }

  /**
   * The comma round trip: stripped, comma-free pieces joined with `", "`, split
   * on `','` and stripped piece by piece, come back unchanged.
   */
  lemma {:induction false} CommaSpaceRoundTrip(xs: seq<string>)
    requires |xs| > 0
    requires forall i :: 0 <= i < |xs| ==> Stripped(xs[i]) && ',' !in xs[i]
    ensures StripAll(Split(Join(", ", xs), ',')) == xs
  {
    var pieces := [xs[0]] + SpacePrefixed(xs[1..]);
    JoinCommaSpace(xs);
    PiecesCommaFree(xs);
    SplitJoin(pieces, ',');
    StripPieces(xs);
  }

  lemma {:induction false} PiecesCommaFree(xs: seq<string>)
    requires |xs| > 0
    requires forall i :: 0 <= i < |xs| ==> ',' !in xs[i]
    ensures var pieces := [xs[0]] + SpacePrefixed(xs[1..]);
            forall i :: 0 <= i < |pieces| ==> ',' !in pieces[i]
  {
    var pieces := [xs[0]] + SpacePrefixed(xs[1..]);
    forall i | 0 <= i < |pieces|
      ensures ',' !in pieces[i]
    {
      if i > 0 {
        assert pieces[i] == " " + xs[i];
      }
    }
  }

  lemma {:induction false} StripPieces(xs: seq<string>)
    requires |xs| > 0
    requires forall i :: 0 <= i < |xs| ==> Stripped(xs[i])
    ensures StripAll([xs[0]] + SpacePrefixed(xs[1..])) == xs
  {
    var ys := SpacePrefixed(xs[1..]);
    StripAllCons(xs[0], ys);
    StripStripped(xs[0]);
    StripSpacePrefixed(xs[1..]);
    assert [xs[0]] + xs[1..] == xs;
  }

  lemma {:induction false} StripAllCons(x: string, ys: seq<string>)
    ensures StripAll([x] + ys) == [Strip(x)] + StripAll(ys)
  {
    assert ([x] + ys)[1..] == ys;
  }

  lemma {:induction false} StripSpacePrefixed(ys: seq<string>)
    requires forall i :: 0 <= i < |ys| ==> Stripped(ys[i])
    ensures StripAll(SpacePrefixed(ys)) == ys
  {
    var r := StripAll(SpacePrefixed(ys));
    forall i | 0 <= i < |ys|
      ensures r[i] == ys[i]
    {
      StripAllAt(SpacePrefixed(ys), i);
      StripLeadingSpace(ys[i]);
    }
  }

  predicate IsDigit(c: char) {
    '0' <= c <= '9'
  }

  function DigitChar(d: nat): (c: char)
    requires d < 10
    ensures IsDigit(c) && c as int - '0' as int == d
  {
    ('0' as int + d) as char
  }

  /**
   * The value of a non-empty string of ASCII decimal digits, read from the
   * last digit backwards; `None` if the string is empty or holds anything else.
   */
  function ParseDigits(d: string): Option<int> {
    if d == [] || !IsDigit(d[|d| - 1]) then None
    else
      var last := d[|d| - 1] as int - '0' as int;
      if |d| == 1 then Some(last)
      else
        match ParseDigits(d[..|d| - 1])
        case None => None
        case Some(v) => Some(10 * v + last)
  }

  /** `str(n)` for a non-negative integer: shortest decimal form. */
  function NatToString(n: nat): (r: string)
    ensures |r| > 0 && IsDigit(r[0]) && IsDigit(r[|r| - 1])
    ensures |r| > 1 ==> r[0] != '0'
  {
    if n < 10 then [DigitChar(n)] else NatToString(n / 10) + [DigitChar(n % 10)]
  }

  /** `str(n)` for an integer: a minus sign for negatives, then the digits of `|n|`. */
  function IntToString(n: int): string {
    SignOf(n) + NatToString(Abs(n))
  }

  function SignOf(n: int): string {
    if n < 0 then "-" else ""
  }

  function Abs(n: int): nat {
    if n < 0 then -n else n
  }

  /**
   * `int(s)` for a string: surrounding whitespace is ignored, then an optional
   * sign and at least one ASCII digit; anything else is a `ValueError` (`None`).
   */
  function ParseInt(s: string): Option<int> {
    ParseSigned(TrimIntSpace(s))
  }

  /**
   * The whitespace `int()` skips around a number. CPython turns non-ASCII
   * whitespace into spaces and then skips ASCII spaces, tabs and line breaks,
   * so this is the `str.isspace` set without the separators U+001C..U+001F,
   * which `strip()` removes but `int()` rejects.
   */
  predicate IsIntSpace(c: char) {
    IsSpace(c) && !('\U{1C}' <= c <= '\U{1F}')
  }

  /** `s` without the `int()` whitespace at either end. */
  function TrimIntSpace(s: string): string {
    if s != [] && IsIntSpace(s[0]) then TrimIntSpace(s[1..])
    else if s != [] && IsIntSpace(s[|s| - 1]) then TrimIntSpace(s[..|s| - 1])
    else s
  }

  /** `int()` rejects a number preceded by a separator that `strip()` would remove. */
  lemma ParseIntKeepsSeparators()
    ensures Strip("\U{1C}40") == "40"
    ensures ParseInt("\U{1C}40") == None
  {
    var t := "\U{1C}40";
    assert t[1..] == "40";
    assert TrimStart(t) == "40";
    assert TrimIntSpace(t) == t;
    assert t[..2] == "\U{1C}4" && t[..2][..1] == "\U{1C}";
    assert ParseDigits(t[..2][..1]) == None;
  }

  /** `int()` skips ASCII spaces, tabs and line breaks around the number. */
  lemma ParseIntSkipsSpaces()
    ensures ParseInt(" \t40\n") == Some(40)
  {
    var t := " \t40\n";
    assert t[1..] == "\t40\n" && t[1..][1..] == "40\n" && t[1..][1..][..2] == "40";
    assert TrimIntSpace(t) == "40";
    assert ("40")[..1] == "4";
    assert ParseDigits("40") == Some(40);
  }

  /** An optional sign followed by one or more ASCII digits, and nothing else. */
  function ParseSigned(t: string): Option<int> {
    if |t| > 0 && (t[0] == '-' || t[0] == '+') then
      match ParseDigits(t[1..])
      case None => None
      case Some(v) => Some(if t[0] == '-' then -v else v)
    else ParseDigits(t)
  }

  /** The digits of `str(n)` read back as `n`. */
  lemma {:induction false} DigitsOfNat(n: nat)
    ensures ParseDigits(NatToString(n)) == Some(n)
  {
    if n >= 10 {
      DigitsOfNat(n / 10);
      var s := NatToString(n);
      assert s[..|s| - 1] == NatToString(n / 10);
    }
  }

  lemma {:induction false} NatStringStripped(m: nat)
    ensures TrimIntSpace(NatToString(m)) == NatToString(m)
  {
  }

  lemma {:induction false} ParseNatString(m: nat)
    ensures ParseInt(NatToString(m)) == Some(m)
  {
    NatStringStripped(m);
    DigitsOfNat(m);
  }

  lemma {:induction false} NegativeStringStripped(m: nat)
    ensures TrimIntSpace("-" + NatToString(m)) == "-" + NatToString(m)
  {
    var t := "-" + NatToString(m);
    assert t[0] == '-' && t[|t| - 1] == NatToString(m)[|NatToString(m)| - 1];
  }

  lemma {:induction false} ParseSignedNegativeString(m: nat)
    ensures ParseSigned("-" + NatToString(m)) == Some(-(m as int))
  {
    assert ("-" + NatToString(m))[1..] == NatToString(m);
    DigitsOfNat(m);
  }

  lemma {:induction false} ParseNegativeString(m: nat)
    ensures ParseInt("-" + NatToString(m)) == Some(-(m as int))
  {
    NegativeStringStripped(m);
    ParseSignedNegativeString(m);
  }

  /** `int(str(n)) == n` for every integer. */
  lemma {:induction false} ParseIntToString(n: int)
    ensures ParseInt(IntToString(n)) == Some(n)
  {
    if n < 0 {
      ParseNegativeString(Abs(n));
    } else {
      ParseNatString(Abs(n));
      assert IntToString(n) == NatToString(n);
    }
  }
}
