/** Character and string helpers shared by the Python scripts and the Rust crate:
    whitespace stripping, splitting on one separator, joining, ASCII lower-casing,
    decimal rendering and Python's `int()` on decimal strings. */
module Text {
  import opened Wrappers
  import opened Seqs

  /** Whitespace as Rust's `char::is_whitespace` and `str::trim` see it. */
  predicate IsRustSpace(c: char) {
    c == ' ' || ('\t' <= c <= '\r') || c == '\U{85}' || c == '\U{A0}' || c == '\U{1680}'
    || ('\U{2000}' <= c <= '\U{200A}') || c == '\U{2028}' || c == '\U{2029}'
    || c == '\U{202F}' || c == '\U{205F}' || c == '\U{3000}'
  }

  /** Whitespace as Python's `str.isspace` and `str.strip` see it: Rust's set plus the
      four information separators U+001C..U+001F. */
  predicate IsPySpace(c: char) {
    IsRustSpace(c) || ('\U{1C}' <= c <= '\U{1F}')
  }

  /** Drops leading characters satisfying `sp`. */
  function TrimStart(s: string, sp: char -> bool): (r: string)
    ensures |r| <= |s| && r == s[|s| - |r|..]
    ensures forall i :: 0 <= i < |s| - |r| ==> sp(s[i])
    ensures r == [] || !sp(r[0])
    decreases |s|
  {
    if |s| > 0 && sp(s[0]) then TrimStart(s[1..], sp) else s
  }

  /** Drops trailing characters satisfying `sp`. */
  function TrimEnd(s: string, sp: char -> bool): (r: string)
    ensures |r| <= |s| && r == s[..|r|]
    ensures forall i :: |r| <= i < |s| ==> sp(s[i])
    ensures r == [] || !sp(r[|r| - 1])
    decreases |s|
  {
    if |s| > 0 && sp(s[|s| - 1]) then TrimEnd(s[..|s| - 1], sp) else s
  }

  function Strip(s: string, sp: char -> bool): string {
    TrimEnd(TrimStart(s, sp), sp)
  }

  /** Python `str.strip()` with no argument. */
  function PyStrip(s: string): string {
    Strip(s, IsPySpace)
  }

  /** Rust `str::trim()`. */
  function RustTrim(s: string): string {
    Strip(s, IsRustSpace)
  }

  /** Stripping changes nothing when neither end is whitespace. */
  lemma StripNoEdgeSpace(s: string, sp: char -> bool)
    requires s == [] || (!sp(s[0]) && !sp(s[|s| - 1]))
    ensures Strip(s, sp) == s
  {
  }

  /** Stripping is idempotent, and what remains has no whitespace at either end. */
  lemma StripIdempotent(s: string, sp: char -> bool)
    ensures var t := Strip(s, sp); t == [] || (!sp(t[0]) && !sp(t[|t| - 1]))
    ensures Strip(Strip(s, sp), sp) == Strip(s, sp)
  {
    var a := TrimStart(s, sp);
    var t := TrimEnd(a, sp);
    if t != [] {
      assert t[0] == a[0];
    }
    StripNoEdgeSpace(t, sp);
  }

  predicate StartsWith(s: string, prefix: string) {
    |prefix| <= |s| && s[..|prefix|] == prefix
  }

  /** `sub in s` for strings (Python) / `s.contains(sub)` (Rust). */
  predicate ContainsStr(s: string, sub: string)
    decreases |s|
  {
    StartsWith(s, sub) || (|s| > 0 && ContainsStr(s[1..], sub))
  }

  lemma {:induction false} ContainsStrAt(s: string, sub: string, i: nat)
    requires i + |sub| <= |s| && s[i..i + |sub|] == sub
    ensures ContainsStr(s, sub)
    decreases i
  {
    if i > 0 {
      assert s[1..][i - 1..i - 1 + |sub|] == s[i..i + |sub|];
      ContainsStrAt(s[1..], sub, i - 1);
    }
  }

  lemma {:induction false} ContainsStrWitness(s: string, sub: string) returns (i: nat)
    requires ContainsStr(s, sub)
    ensures i + |sub| <= |s| && s[i..i + |sub|] == sub
    decreases |s|
  {
    if StartsWith(s, sub) {
      i := 0;
    } else {
      var j := ContainsStrWitness(s[1..], sub);
      assert s[1..][j..j + |sub|] == s[j + 1..j + 1 + |sub|];
      i := j + 1;
    }
  }

  /** Index of the first `c` in `s`, or `|s|` when there is none. */
  function IndexOf(s: string, c: char): (i: nat)
    ensures i <= |s|
    ensures c !in s[..i]
    ensures i < |s| ==> s[i] == c
  {
    if |s| == 0 then 0 else if s[0] == c then 0 else 1 + IndexOf(s[1..], c)
  }

  lemma {:induction false} IndexOfIs(s: string, c: char, i: nat)
    requires i <= |s| && c !in s[..i] && (i < |s| ==> s[i] == c)
    ensures IndexOf(s, c) == i
    decreases i
  {
    if i > 0 {
      assert s[..i][0] == s[0];
      assert s[1..][..i - 1] == s[..i][1..];
      IndexOfIs(s[1..], c, i - 1);
    }
  }

  /** `sep.join(parts)` (Python) / `parts.join(sep)` (Rust). */
  function Join(parts: seq<string>, sep: string): string {
    if |parts| == 0 then ""
    else if |parts| == 1 then parts[0]
    else parts[0] + sep + Join(parts[1..], sep)
  }

  /** `s.split(sep)` for a one-character separator: every piece between separators,
      empty pieces included, so the result is never empty. Joining the pieces back with
      the separator gives `s` again, and no piece contains the separator. */
  function Split(s: string, sep: char): (parts: seq<string>)
    ensures |parts| >= 1
    ensures forall k :: 0 <= k < |parts| ==> sep !in parts[k]
    ensures Join(parts, [sep]) == s
    decreases |s|
  {
    var i := IndexOf(s, sep);
    if i == |s| then [s]
    else
      var rest := Split(s[i + 1..], sep);
      assert ([s[..i]] + rest)[1..] == rest;
      assert s == s[..i] + [sep] + s[i + 1..];
      [s[..i]] + rest
  }

  /** Splitting undoes joining when no piece contains the separator. */
  lemma {:induction false} SplitJoin(parts: seq<string>, sep: char)
    requires |parts| >= 1
    requires forall k :: 0 <= k < |parts| ==> sep !in parts[k]
    ensures Split(Join(parts, [sep]), sep) == parts
  {
    if |parts| == 1 {
      IndexOfIs(parts[0], sep, |parts[0]|);
    } else {
      var rest := Join(parts[1..], [sep]);
      var s := parts[0] + [sep] + rest;
      assert s[..|parts[0]|] == parts[0];
      IndexOfIs(s, sep, |parts[0]|);
      assert s[|parts[0]| + 1..] == rest;
      SplitJoin(parts[1..], sep);
    }
  }

  lemma {:induction false} JoinAppend(p: seq<string>, q: seq<string>, sep: string)
    requires |p| >= 1 && |q| >= 1
    ensures Join(p + q, sep) == Join(p, sep) + sep + Join(q, sep)
    decreases |p|
  {
    if |p| == 1 {
      assert (p + q)[1..] == q;
    } else {
      assert (p + q)[1..] == p[1..] + q;
      JoinAppend(p[1..], q, sep);
    }
  }

  /** Splitting distributes over a separator placed between two strings. */
  lemma SplitAppend(a: string, b: string, sep: char)
    ensures Split(a + [sep] + b, sep) == Split(a, sep) + Split(b, sep)
  {
    var pa, pb := Split(a, sep), Split(b, sep);
    JoinAppend(pa, pb, [sep]);
    SplitJoin(pa + pb, sep);
  }

  predicate NonEmpty(c: string) {
    c != ""
  }

  /** Stripping a piece that lacks `c` leaves a piece that lacks `c`, and stripping it
      again changes nothing. */
  lemma StrippedPiece(piece: string, c: char)
    requires c !in piece
    ensures c !in PyStrip(piece) && PyStrip(PyStrip(piece)) == PyStrip(piece)
  {
    StripIdempotent(piece, IsPySpace);
    var t := TrimStart(piece, IsPySpace);
    var r := TrimEnd(t, IsPySpace);
    forall k | 0 <= k < |r|
      ensures r[k] != c
    {
      assert r[k] == t[k] == piece[|piece| - |t| + k];
    }
  }

  /** `[p.strip() for p in s.split(sep) if p.strip()]`: the stripped non-empty pieces, in
      order. Each is stripped and free of the separator, and every piece that is not blank
      contributes its stripped text. */
  function Pieces(s: string, sep: char): (r: seq<string>)
    ensures forall k :: 0 <= k < |r| ==> r[k] != "" && sep !in r[k] && r[k] == PyStrip(r[k])
    ensures forall k :: 0 <= k < |Split(s, sep)| && PyStrip(Split(s, sep)[k]) != "" ==> PyStrip(Split(s, sep)[k]) in r
  {
    var pieces := Split(s, sep);
    var stripped := Map(pieces, PyStrip);
    var r := Filter(stripped, NonEmpty);
    forall k | 0 <= k < |r|
      ensures sep !in r[k] && r[k] == PyStrip(r[k])
    {
      var j :| 0 <= j < |stripped| && stripped[j] == r[k];
      StrippedPiece(pieces[j], sep);
    }
    r
  }

  /** The pieces of a list joined with `sep` are its stripped non-blank elements, in their
      original order. */
  lemma PiecesOfJoin(parts: seq<string>, sep: char)
    requires |parts| >= 1
    requires forall k :: 0 <= k < |parts| ==> sep !in parts[k]
    ensures Pieces(Join(parts, [sep]), sep) == Filter(Map(parts, PyStrip), NonEmpty)
  {
    SplitJoin(parts, sep);
  }

  function LowerChar(c: char): char {
    if 'A' <= c <= 'Z' then (c as int + 32) as char else c
  }

  /** Lower-casing restricted to ASCII letters. */
  function ToLowerAscii(s: string): (r: string)
    ensures |r| == |s|
    ensures forall i :: 0 <= i < |s| ==> r[i] == LowerChar(s[i])
  {
    if |s| == 0 then "" else [LowerChar(s[0])] + ToLowerAscii(s[1..])
  }

  predicate IsDigit(c: char) {
    '0' <= c <= '9'
  }

  function DigitChar(d: nat): (c: char)
    requires d < 10
    ensures IsDigit(c) && c as int - '0' as int == d
  {
    ('0' as int + d) as char
  }

  /** Decimal rendering of a natural number, as `format!("{}")` and `str()` produce it. */
  function NatToString(n: nat): (s: string)
    ensures |s| >= 1
    ensures forall i :: 0 <= i < |s| ==> IsDigit(s[i])
    ensures |s| > 1 ==> s[0] != '0'
    decreases n
  {
    if n < 10 then [DigitChar(n)] else NatToString(n / 10) + [DigitChar(n % 10)]
  }

  /** Value of the ASCII digits of `s`, read left to right, skipping any other character
      (Python's `_` digit-group separators). */
  function DigitsValue(s: string): nat
    decreases |s|
  {
    if |s| == 0 then 0
    else
      var last := s[|s| - 1];
      if IsDigit(last) then DigitsValue(s[..|s| - 1]) * 10 + (last as int - '0' as int)
      else DigitsValue(s[..|s| - 1])
  }

  /** What Python's `int()` accepts after the sign: ASCII digits, with single `_`
      separators allowed between two digits. */
  predicate IsPyDigits(s: string) {
    && |s| > 0 && IsDigit(s[0]) && IsDigit(s[|s| - 1])
    && forall i :: 0 <= i < |s| ==> IsDigit(s[i]) || (s[i] == '_' && i + 1 < |s| && IsDigit(s[i + 1]))
  }

  /** Python `int(s)` on a string: surrounding whitespace is ignored, an optional sign,
      then decimal digits; anything else raises, modelled as `None`. */
  function PyInt(s: string): Option<int> {
    var t := PyStrip(s);
    if |t| > 0 && (t[0] == '+' || t[0] == '-') then
      if IsPyDigits(t[1..]) then
        var v: int := DigitsValue(t[1..]);
        Some(if t[0] == '-' then -v else v)
      else None
    else if IsPyDigits(t) then Some(DigitsValue(t))
    else None
  }

  lemma {:induction false} DigitsValueOfDecimal(n: nat)
    ensures DigitsValue(NatToString(n)) == n
    decreases n
  {
    if n >= 10 {
      var s := NatToString(n);
      assert s[..|s| - 1] == NatToString(n / 10);
      DigitsValueOfDecimal(n / 10);
    }
  }

  /** Different numbers render differently. */
  lemma NatToStringInjective(a: nat, b: nat)
    requires NatToString(a) == NatToString(b)
    ensures a == b
  {
    DigitsValueOfDecimal(a);
    DigitsValueOfDecimal(b);
  }

  /** A string made of a separator-free head, the separator and a tail determines
      the head and the tail. */
  lemma SplitAtFirst(a1: string, b1: string, a2: string, b2: string, c: char)
    requires c !in a1 && c !in a2
    requires a1 + [c] + b1 == a2 + [c] + b2
    ensures a1 == a2 && b1 == b2
  {
    var s := a1 + [c] + b1;
    assert s[..|a1|] == a1;
    assert s[..|a2|] == a2;
    IndexOfIs(s, c, |a1|);
    IndexOfIs(s, c, |a2|);
    assert s[|a1| + 1..] == b1;
    assert s[|a2| + 1..] == b2;
  }

  /** Python's `int()` reads back every rendered natural number. */
  lemma PyIntOfDecimal(n: nat)
    ensures PyInt(NatToString(n)) == Some(n)
  {
    var s := NatToString(n);
    assert IsDigit(s[0]) && IsDigit(s[|s| - 1]);
    StripNoEdgeSpace(s, IsPySpace);
    assert PyStrip(s) == s;
    assert IsPyDigits(s);
    DigitsValueOfDecimal(n);
  }

  /** Python's `int()` on a string that is not a number at all (the empty string, or one
      whose first non-blank character is neither a sign nor a digit) is an error. */
  lemma PyIntRejects(s: string)
    requires var t := PyStrip(s); t == [] || (!IsDigit(t[0]) && t[0] != '+' && t[0] != '-')
    ensures PyInt(s) == None
  {
  }
}
