/** The inline mark-up stripper of the PDF script: three regular-expression substitutions
    that replace `**x**`, then `*x*`, then `` `x` `` by `x`. */
module PdfInline {
  import opened Wrappers
  import opened Text

  /** A marker `d` of the form `d(.+?)d`: one or two characters. */
  predicate Marker(d: string) {
    d == "**" || d == "*" || d == "`"
  }

  /** Search for the closing marker of a match that opened at the start of `s`: the
      smallest position `j`, from the given one on, at which `d` occurs, such that the inner
      text `s[|d|..j]` has no newline (`.` does not match one). */
  function CloseFrom(s: string, d: string, j: nat): (r: Option<nat>)
    requires |d| >= 1 && |d| + 1 <= j
    ensures r.Some? ==> j <= r.value && r.value + |d| <= |s| && s[r.value..r.value + |d|] == d
    decreases |s| - j
  {
    if j + |d| > |s| then None
    else if s[j - 1] == '\n' then None
    else if s[j..j + |d|] == d then Some(j)
    else CloseFrom(s, d, j + 1)
  }

  /** `d(.+?)d` tried at the start of `s`: where the inner text ends, if it matches. The
      inner text has at least one character. */
  function MatchAt(s: string, d: string): (r: Option<nat>)
    requires |d| >= 1
    ensures r.Some? ==> StartsWith(s, d) && |d| + 1 <= r.value && r.value + |d| <= |s|
  {
    if StartsWith(s, d) then CloseFrom(s, d, |d| + 1) else None
  }

  /** `re.sub(d(.+?)d, r'\1', s)`: scanning from the left, each match is replaced by its
      inner text and the scan resumes after it; other characters are copied. */
  function Unwrap(s: string, d: string): (r: string)
    requires |d| >= 1
    ensures |r| <= |s|
    decreases |s|
  {
    if |s| == 0 then ""
    else match MatchAt(s, d)
      case Some(j) => s[|d|..j] + Unwrap(s[j + |d|..], d)
      case None => [s[0]] + Unwrap(s[1..], d)
  }

  /** `process_inline_formatting`: bold first, then italic, then code. */
  function ProcessInline(text: string): string {
    Unwrap(Unwrap(Unwrap(text, "**"), "*"), "`")
  }

  /** Text that never starts a marker is copied unchanged. */
  lemma {:induction false} UnwrapNoMarker(s: string, d: string)
    requires |d| >= 1 && d[0] !in s
    ensures Unwrap(s, d) == s
    decreases |s|
  {
    if |s| > 0 {
      assert !StartsWith(s, d) by {
        assert s[0] in s;
      }
      UnwrapNoMarker(s[1..], d);
      assert s == [s[0]] + s[1..];
    }
  }

  /** The search for a close skips inner characters that cannot start the marker. */
  lemma {:induction false} CloseFromSkips(s: string, d: string, j: nat, k: nat)
    requires |d| >= 1 && |d| + 1 <= j <= k && k + |d| <= |s|
    requires forall i :: j - 1 <= i < k ==> s[i] != d[0] && s[i] != '\n'
    requires s[k..k + |d|] == d
    ensures CloseFrom(s, d, j) == Some(k)
    decreases k - j
  {
    if j < k {
      assert s[j..j + |d|][0] == s[j];
      CloseFromSkips(s, d, j + 1, k);
    }
  }

  /** The search for a close fails when no later character can start the marker. */
  lemma {:induction false} CloseFromNone(s: string, d: string, j: nat)
    requires |d| >= 1 && |d| + 1 <= j
    requires forall i :: j <= i < |s| ==> s[i] != d[0]
    ensures CloseFrom(s, d, j) == None
    decreases |s| - j
  {
    if j + |d| <= |s| && s[j - 1] != '\n' {
      assert s[j..j + |d|][0] == s[j];
      CloseFromNone(s, d, j + 1);
    }
  }

  /** One step of the scan when a match is found. */
  lemma UnwrapMatch(s: string, d: string, j: nat)
    requires |d| >= 1 && MatchAt(s, d) == Some(j)
    ensures Unwrap(s, d) == s[|d|..j] + Unwrap(s[j + |d|..], d)
  {
  }

  /** Where the parts of a wrapped text sit. */
  lemma WrappedParts(d: string, x: string, rest: string)
    ensures (d + x + d + rest)[..|d|] == d
    ensures (d + x + d + rest)[|d|..|d| + |x|] == x
    ensures (d + x + d + rest)[|d| + |x|..|d| + |x| + |d|] == d
    ensures (d + x + d + rest)[|d| + |x| + |d|..] == rest
  {
  }

  /** A wrapped text matches, and its inner text ends where the closing marker starts. */
  lemma WrappedMatches(d: string, x: string, rest: string)
    requires |d| >= 1 && |x| >= 1 && d[0] !in x && '\n' !in x
    ensures MatchAt(d + x + d + rest, d) == Some(|d| + |x|)
  {
    var s := d + x + d + rest;
    var k := |d| + |x|;
    WrappedParts(d, x, rest);
    forall i | |d| <= i < k
      ensures s[i] != d[0] && s[i] != '\n'
    {
      assert s[i] == s[|d|..k][i - |d|];
    }
    CloseFromSkips(s, d, |d| + 1, k);
  }

  /** A marker around text that has no newline and never starts the marker is replaced by
      that text, and the scan goes on after the closing marker. */
  lemma UnwrapOne(d: string, x: string, rest: string)
    requires |d| >= 1 && |x| >= 1 && d[0] !in x && '\n' !in x
    ensures Unwrap(d + x + d + rest, d) == x + Unwrap(rest, d)
  {
    WrappedMatches(d, x, rest);
    UnwrapMatch(d + x + d + rest, d, |d| + |x|);
    WrappedParts(d, x, rest);
  }

  /** An opening marker that is never closed stays literal. */
  lemma UnterminatedStays(d: string, x: string)
    requires Marker(d) && d[0] !in x
    ensures Unwrap(d + x, d) == d + x
  {
    NoCloseAfterOpen(d, x);
    UnwrapNoMarker(x, d);
    if |d| == 1 {
      assert (d + x)[1..] == x;
    } else {
      SecondStarStays(x);
      assert (d + x)[1..] == "*" + x;
    }
  }

  /** An opening marker followed by text that never starts the marker has no match. */
  lemma NoCloseAfterOpen(d: string, x: string)
    requires Marker(d) && d[0] !in x
    ensures MatchAt(d + x, d) == None
  {
    var s := d + x;
    forall i | |d| + 1 <= i < |s|
      ensures s[i] != d[0]
    {
      assert s[i] == x[i - |d|];
    }
    CloseFromNone(s, d, |d| + 1);
  }

  /** After the first asterisk of an unclosed `**`, the second is copied as it is. */
  lemma SecondStarStays(x: string)
    requires '*' !in x
    ensures Unwrap("*" + x, "**") == "*" + Unwrap(x, "**")
  {
    var t := "*" + x;
    assert !StartsWith(t, "**") by {
      if |t| >= 2 {
        assert t[1] == x[0];
      }
    }
    assert t[1..] == x;
  }

  /** Text without asterisks and backticks passes through all three substitutions. */
  lemma PlainTextUnchanged(t: string)
    requires '*' !in t && '`' !in t
    ensures ProcessInline(t) == t
  {
    UnwrapNoMarker(t, "**");
    UnwrapNoMarker(t, "*");
    UnwrapNoMarker(t, "`");
  }

  /** Text in which no two asterisks are adjacent has no bold span. */
  lemma {:induction false} NoDoubleStar(s: string)
    requires forall i :: 0 <= i < |s| - 1 ==> !(s[i] == '*' && s[i + 1] == '*')
    ensures Unwrap(s, "**") == s
    decreases |s|
  {
    if |s| > 0 {
      assert !StartsWith(s, "**") by {
        if |s| >= 2 {
          assert s[..2][0] == s[0] && s[..2][1] == s[1];
        }
      }
      var t := s[1..];
      forall i | 0 <= i < |t| - 1
        ensures !(t[i] == '*' && t[i + 1] == '*')
      {
        assert t[i] == s[i + 1] && t[i + 1] == s[i + 2];
      }
      NoDoubleStar(t);
      assert s == [s[0]] + t;
    }
  }

  /** A whole text wrapped in one marker reduces to its inner text. */
  lemma UnwrapWhole(d: string, x: string)
    requires |d| >= 1 && |x| >= 1 && d[0] !in x && '\n' !in x
    ensures Unwrap(d + x + d, d) == x
  {
    UnwrapOne(d, x, "");
    assert d + x + d + "" == d + x + d;
  }

  /** A bold span around plain text reduces to the text. */
  lemma BoldStripped(x: string)
    requires |x| >= 1 && '*' !in x && '`' !in x && '\n' !in x
    ensures ProcessInline("**" + x + "**") == x
  {
    UnwrapWhole("**", x);
    UnwrapNoMarker(x, "*");
    UnwrapNoMarker(x, "`");
  }

  /** An italic span around plain text reduces to the text. */
  lemma ItalicStripped(x: string)
    requires |x| >= 1 && '*' !in x && '`' !in x && '\n' !in x
    ensures ProcessInline("*" + x + "*") == x
  {
    var s := "*" + x + "*";
    forall i | 0 <= i < |s| - 1
      ensures !(s[i] == '*' && s[i + 1] == '*')
    {
      if i == 0 {
        assert s[1] == x[0];
      } else {
        assert s[i] == x[i - 1];
      }
    }
    NoDoubleStar(s);
    UnwrapWhole("*", x);
    UnwrapNoMarker(x, "`");
  }

  /** A code span around plain text reduces to the text. */
  lemma CodeStripped(x: string)
    requires |x| >= 1 && '*' !in x && '`' !in x && '\n' !in x
    ensures ProcessInline("`" + x + "`") == x
  {
    var s := "`" + x + "`";
    assert '*' !in s;
    UnwrapNoMarker(s, "**");
    UnwrapNoMarker(s, "*");
    UnwrapWhole("`", x);
  }
}
