/**
 * The PHP string functions the compiler and the module loader rely on
 * (substr_count, strpos, implode, explode, substr, trim, strtolower, intval
 * rendering), written out on `string` = `seq<char>`.
 */
module Strings {
  import opened Outcomes

  /** The characters PHP's `trim()` strips by default. */
  predicate IsBlank(c: char) {
    c == ' ' || c == '\t' || c == '\n' || c == '\r' || c == '\0' || c == '\U{B}'
  }

  /** PHP `empty()` on a string: the empty string and "0" are empty. */
  predicate PhpEmpty(s: string) {
    s == "" || s == "0"
  }

  /** A name that holds neither a placeholder mark nor a bracket. */
  predicate Bare(s: string) {
    '?' !in s && '(' !in s && ')' !in s
  }

  /** `part` is what remains at the end of `whole`. */
  predicate IsSuffix(part: string, whole: string) {
    |part| <= |whole| && whole[|whole| - |part|..] == part
  }

  /** A character of a suffix is a character of the whole. */
  lemma SuffixChars(part: string, whole: string, c: char)
    requires IsSuffix(part, whole) && c in part
    ensures c in whole
  {
    var i :| 0 <= i < |part| && part[i] == c;
    assert whole[|whole| - |part| + i] == c;
  }

  /** `substr_count(s, c)` for a one-character needle. */
  function Count(s: string, c: char): (n: nat)
    ensures n <= |s|
    ensures n == 0 <==> c !in s
  {
    if s == [] then 0 else (if s[0] == c then 1 else 0) + Count(s[1..], c)
  }

  lemma {:induction false} CountConcat(a: string, b: string, c: char)
    ensures Count(a + b, c) == Count(a, c) + Count(b, c)
  {
    if a == [] {
      assert a + b == b;
    } else {
      assert (a + b)[1..] == a[1..] + b;
      CountConcat(a[1..], b, c);
    }
  }

  /** `implode('', parts)`. */
  function Concat(parts: seq<string>): string {
    if parts == [] then "" else parts[0] + Concat(parts[1..])
  }

  lemma {:induction false} ConcatAppend(a: seq<string>, b: seq<string>)
    ensures Concat(a + b) == Concat(a) + Concat(b)
  {
    if a == [] {
      assert a + b == b;
    } else {
      assert (a + b)[1..] == a[1..] + b;
      ConcatAppend(a[1..], b);
    }
  }

  /** `implode(sep, parts)`. */
  function Join(sep: string, parts: seq<string>): string {
    if parts == [] then "" else if |parts| == 1 then parts[0] else parts[0] + sep + Join(sep, parts[1..])
  }

  /** `strpos(s, c)`: the first index of `c`, or `None` where PHP returns FALSE. */
  function IndexOf(s: string, c: char): (r: Option<nat>)
    ensures r.None? <==> c !in s
    ensures r.Some? ==> r.value < |s| && s[r.value] == c && c !in s[..r.value]
  {
    if s == [] then None
    else if s[0] == c then Some(0)
    else
      match IndexOf(s[1..], c)
      case None => None
      case Some(k) =>
        assert s[..k + 1] == [s[0]] + s[1..][..k];
        Some(k + 1)
  }

  /** `substr(s, start)` for a non-negative start: "" once start passes the end. */
  function Substr(s: string, start: nat): (r: string)
    ensures |r| <= |s|
  {
    if start <= |s| then s[start..] else ""
  }

  /** `explode(c, s)` without a limit. */
  function Explode(s: string, c: char): (parts: seq<string>)
    ensures |parts| == Count(s, c) + 1
    ensures forall i :: 0 <= i < |parts| ==> c !in parts[i]
    decreases |s|
  {
    match IndexOf(s, c)
    case None => [s]
    case Some(k) =>
      assert s == s[..k] + [c] + s[k + 1..];
      CountConcat(s[..k] + [c], s[k + 1..], c);
      CountConcat(s[..k], [c], c);
      [s[..k]] + Explode(s[k + 1..], c)
  }

  /** Nothing but blanks. */
  predicate AllBlank(t: string) {
    forall j :: 0 <= j < |t| ==> IsBlank(t[j])
  }

  function TrimRight(s: string): (r: string)
    ensures |r| <= |s| && r == s[..|r|]
    ensures r == [] || !IsBlank(r[|r| - 1])
    ensures AllBlank(s[|r|..])
  {
    if s != [] && IsBlank(s[|s| - 1]) then TrimRight(s[..|s| - 1]) else s
  }

  /** `trim(s)`: the blanks at the front, then the blanks at the back, removed. */
  function Trim(s: string): (r: string)
    ensures |r| <= |s|
    ensures r == [] || (!IsBlank(r[0]) && !IsBlank(r[|r| - 1]))
  {
    if s != [] && IsBlank(s[0]) then Trim(s[1..]) else TrimRight(s)
  }

  /** How many blanks `trim` drops at the front. */
  function TrimStart(s: string): (n: nat)
    ensures n <= |s|
  {
    if s != [] && IsBlank(s[0]) then 1 + TrimStart(s[1..]) else 0
  }

  /**
   * `trim` removes blanks only: the text is the blanks it dropped in front,
   * the result, and the blanks it dropped behind.
   */
  lemma {:induction false} TrimKeepsInner(s: string)
    ensures var i, t := TrimStart(s), Trim(s);
            && i + |t| <= |s|
            && s[i..i + |t|] == t
            && AllBlank(s[..i])
            && AllBlank(s[i + |t|..])
    decreases |s|
  {
    if s != [] && IsBlank(s[0]) {
      var s' := s[1..];
      TrimKeepsInner(s');
      BlankShift(s, TrimStart(s'), |Trim(s')|);
    } else {
      var r := TrimRight(s);
      assert s[0..|r|] == r;
    }
  }

  /** The facts about `s[1..]` carry over to `s` when `s` starts with a blank. */
  lemma BlankShift(s: string, i: nat, n: nat)
    requires s != [] && IsBlank(s[0])
    requires i + n <= |s| - 1 && AllBlank(s[1..][..i]) && AllBlank(s[1..][i + n..])
    ensures s[1..][i..i + n] == s[i + 1..i + 1 + n]
    ensures AllBlank(s[..i + 1]) && AllBlank(s[i + 1 + n..])
  {
    assert s[1..][i + n..] == s[i + 1 + n..];
    assert s[..i + 1] == [s[0]] + s[1..][..i];
  }

  function LowerChar(c: char): char {
    if 'A' <= c <= 'Z' then (c as int + 32) as char else c
  }

  function UpperChar(c: char): char {
    if 'a' <= c <= 'z' then (c as int - 32) as char else c
  }

  /** `strtolower(s)` on ASCII letters. */
  function Lower(s: string): (r: string)
    ensures |r| == |s|
  {
    seq(|s|, i requires 0 <= i < |s| => LowerChar(s[i]))
  }

  predicate IsDigit(c: char) {
    '0' <= c <= '9'
  }

  function DigitChar(d: nat): (c: char)
    requires d < 10
    ensures IsDigit(c)
  {
    "0123456789"[d]
  }

  /** Decimal rendering of a natural number, as PHP prints an integer. */
  function NatToString(n: nat): (s: string)
    ensures |s| > 0
    ensures forall i :: 0 <= i < |s| ==> IsDigit(s[i])
    ensures s[0] == '0' <==> n == 0
    ensures n == 0 ==> s == "0"
  {
    if n < 10 then [DigitChar(n)] else NatToString(n / 10) + [DigitChar(n % 10)]
  }

  /** The number a string of decimal digits denotes. */
  function DigitsValue(s: string): nat
    requires AllDigits(s)
  {
    if s == [] then 0 else DigitsValue(s[..|s| - 1]) * 10 + (s[|s| - 1] as int - '0' as int)
  }

  /** The digits of n read back as n. */
  lemma {:induction false} NatToStringValue(n: nat)
    ensures AllDigits(NatToString(n))
    ensures DigitsValue(NatToString(n)) == n
    decreases n
  {
    if n >= 10 {
      NatToStringValue(n / 10);
      var s := NatToString(n);
      assert s[..|s| - 1] == NatToString(n / 10);
      assert s[|s| - 1] == DigitChar(n % 10);
      DigitCharValue(n % 10);
    } else {
      DigitCharValue(n);
      assert [DigitChar(n)][..0] == [];
    }
  }

  lemma DigitCharValue(d: nat)
    requires d < 10
    ensures DigitChar(d) as int - '0' as int == d
  {
  }

  /** Decimal rendering of an integer (`(string)$i`, `intval($x)` in a string context). */
  function IntToString(i: int): (s: string)
    ensures Bare(s)
  {
    if i < 0 then "-" + NatToString(-i) else NatToString(i)
  }

  predicate AllDigits(s: string) {
    forall i :: 0 <= i < |s| ==> IsDigit(s[i])
  }

  /**
   * A decimal integer in the exact form PHP turns an array key into an
   * integer key: "0", or an optional minus sign, a non-zero digit and digits.
   */
  predicate IsCanonicalInteger(s: string) {
    || s == "0"
    || (|s| >= 1 && '1' <= s[0] <= '9' && AllDigits(s[1..]))
    || (|s| >= 2 && s[0] == '-' && '1' <= s[1] <= '9' && AllDigits(s[2..]))
  }

  /** The text of every integer is in that form. */
  lemma IntToStringCanonical(i: int)
    ensures IsCanonicalInteger(IntToString(i))
  {
    if i < 0 {
      var t := NatToString(-i);
      assert IntToString(i)[2..] == t[1..];
    } else if i > 0 {
      var t := NatToString(i);
      assert IntToString(i)[1..] == t[1..];
    }
  }

  /** A piece `trim()` leaves as it is and that is not empty. */
  predicate Trimmed(s: string) {
    s != [] && !IsBlank(s[0]) && !IsBlank(s[|s| - 1])
  }

  lemma {:induction false} TrimChars(s: string, c: char)
    requires c !in s
    ensures c !in Trim(s)
  {
    if s != [] && IsBlank(s[0]) {
      TrimChars(s[1..], c);
    } else {
      var r := TrimRight(s);
      assert r == s[..|r|];
    }
  }

  lemma TrimKeepsTrimmed(s: string)
    requires Trimmed(s)
    ensures Trim(s) == s
  {
  }

  /** The trimmed, non-empty strings among `parts`, in order. */
  function TrimPieces(parts: seq<string>, c: char): (r: seq<string>)
    requires forall i :: 0 <= i < |parts| ==> c !in parts[i]
    ensures |r| <= |parts|
    ensures forall i :: 0 <= i < |r| ==> Trimmed(r[i]) && c !in r[i]
  {
    if parts == [] then []
    else
      var t := Trim(parts[0]);
      TrimChars(parts[0], c);
      var rest := TrimPieces(parts[1..], c);
      if t == "" then rest
      else
        assert Trimmed(t) && c !in t;
        [t] + rest
  }

  /**
   * TYPO3's `GeneralUtility::trimExplode(c, s, TRUE)`: the pieces between the
   * separators, trimmed, with the empty ones dropped and the rest renumbered
   * from 0.
   */
  function TrimExplode(s: string, c: char): (r: seq<string>)
    ensures forall i :: 0 <= i < |r| ==> Trimmed(r[i]) && c !in r[i]
  {
    TrimPieces(Explode(s, c), c)
  }

  lemma {:induction false} TrimPiecesKeeps(parts: seq<string>, c: char)
    requires forall i :: 0 <= i < |parts| ==> Trimmed(parts[i]) && c !in parts[i]
    ensures TrimPieces(parts, c) == parts
  {
    if parts != [] {
      TrimKeepsTrimmed(parts[0]);
      TrimPiecesKeeps(parts[1..], c);
      assert TrimPieces(parts, c) == [parts[0]] + TrimPieces(parts[1..], c);
    }
  }

  /** The first separator of `a + [c] + b` is the one after `a`. */
  lemma IndexOfSeparator(a: string, b: string, c: char)
    requires c !in a
    ensures IndexOf(a + [c] + b, c) == Some(|a|)
  {
    var s := a + [c] + b;
    assert s[|a|] == c;
    assert s[..|a|] == a;
  }

  /** `explode` undoes `implode` when no piece holds the separator. */
  lemma {:induction false} ExplodeJoin(parts: seq<string>, c: char)
    requires parts != []
    requires forall i :: 0 <= i < |parts| ==> c !in parts[i]
    ensures Explode(Join([c], parts), c) == parts
  {
    if |parts| == 1 {
      assert Join([c], parts) == parts[0];
    } else {
      var rest := Join([c], parts[1..]);
      var s := parts[0] + [c] + rest;
      assert Join([c], parts) == s;
      IndexOfSeparator(parts[0], rest, c);
      assert s[..|parts[0]|] == parts[0];
      assert s[|parts[0]| + 1..] == rest;
      ExplodeJoin(parts[1..], c);
    }
  }

  /**
   * Pieces that are already trimmed, non-empty and free of the separator come
   * back unchanged from `trimExplode` after `implode`.
   */
  lemma TrimExplodeJoin(parts: seq<string>, c: char)
    requires parts != []
    requires forall i :: 0 <= i < |parts| ==> Trimmed(parts[i]) && c !in parts[i]
    ensures TrimExplode(Join([c], parts), c) == parts
  {
    ExplodeJoin(parts, c);
    TrimPiecesKeeps(parts, c);
  }
}
