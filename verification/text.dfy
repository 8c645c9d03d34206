/** Removal of leading and trailing whitespace, parameterised by the set of
    characters a language counts as whitespace. */
module Text {

  /** Whose notion of whitespace a trim uses. */
  datatype Whitespace =
    | Js   // `String.prototype.trim`: ECMAScript WhiteSpace and LineTerminator
    | Py   // `str.strip()`: the characters for which `str.isspace` holds

  /** `c` is whitespace for `ws`. Python additionally strips U+001C..U+001F
      and U+0085; JavaScript additionally strips U+FEFF. */
  predicate IsSpace(ws: Whitespace, c: char) {
    || c == '\t' || c == '\n' || c == '\U{000B}' || c == '\U{000C}' || c == '\r' || c == ' '
    || c == '\U{00A0}' || c == '\U{1680}' || ('\U{2000}' <= c <= '\U{200A}')
    || c == '\U{2028}' || c == '\U{2029}' || c == '\U{202F}' || c == '\U{205F}' || c == '\U{3000}'
    || (ws == Js && c == '\U{FEFF}')
    || (ws == Py && (('\U{001C}' <= c <= '\U{001F}') || c == '\U{0085}'))
  }

  /** Every character of `s` is whitespace. */
  predicate AllIn(s: string, ws: Whitespace) {
    forall i :: 0 <= i < |s| ==> IsSpace(ws, s[i])
  }

  /** Neither end of `s` is whitespace. */
  predicate IsTrimmed(s: string, ws: Whitespace) {
    s == [] || (!IsSpace(ws, s[0]) && !IsSpace(ws, s[|s| - 1]))
  }

  /** `s` without its longest all-whitespace prefix. */
  function TrimStart(s: string, ws: Whitespace): string {
    if |s| > 0 && IsSpace(ws, s[0]) then TrimStart(s[1..], ws) else s
  }

  /** `s` without its longest all-whitespace suffix. */
  function TrimEnd(s: string, ws: Whitespace): string {
    if |s| > 0 && IsSpace(ws, s[|s| - 1]) then TrimEnd(s[..|s| - 1], ws) else s
  }

  /** `TrimStart` keeps a suffix of its input, cuts only whitespace, and
      stops at the first character that is not whitespace. */
  lemma {:induction false} TrimStartCuts(s: string, ws: Whitespace)
    ensures var r := TrimStart(s, ws);
      && |r| <= |s| && r == s[|s| - |r|..]
      && AllIn(s[..|s| - |r|], ws)
      && (r == [] || !IsSpace(ws, r[0]))
  {
    if |s| > 0 && IsSpace(ws, s[0]) {
      TrimStartCuts(s[1..], ws);
      var r := TrimStart(s[1..], ws);
      assert s[1..][..|s| - 1 - |r|] == s[1..|s| - |r|];
      assert s[..|s| - |r|] == [s[0]] + s[1..|s| - |r|];
    }
  }

  /** `TrimEnd` keeps a prefix of its input, cuts only whitespace, and
      stops at the last character that is not whitespace. */
  lemma {:induction false} TrimEndCuts(s: string, ws: Whitespace)
    ensures var r := TrimEnd(s, ws);
      && |r| <= |s| && r == s[..|r|]
      && AllIn(s[|r|..], ws)
      && (r == [] || !IsSpace(ws, r[|r| - 1]))
  {
    if |s| > 0 && IsSpace(ws, s[|s| - 1]) {
      TrimEndCuts(s[..|s| - 1], ws);
      var r := TrimEnd(s[..|s| - 1], ws);
      assert s[..|s| - 1][|r|..] == s[|r|..|s| - 1];
      assert s[|r|..] == s[|r|..|s| - 1] + [s[|s| - 1]];
    }
  }

  /** `s` with whitespace removed from both ends. */
  function Trim(s: string, ws: Whitespace): (r: string)
    ensures |r| <= |s|
    ensures IsTrimmed(r, ws)
  {
    var t := TrimStart(s, ws);
    TrimStartCuts(s, ws);
    TrimEndCuts(t, ws);
    var r := TrimEnd(t, ws);
    assert r != [] ==> r[0] == t[0];
    r
  }

  /** The trimmed string is a contiguous piece of the input, and all that was
      cut away on either side is whitespace. */
  lemma TrimCuts(s: string, ws: Whitespace) returns (i: nat, j: nat)
    ensures i <= j <= |s| && Trim(s, ws) == s[i..j]
    ensures AllIn(s[..i], ws) && AllIn(s[j..], ws)
  {
    var t := TrimStart(s, ws);
    var r := TrimEnd(t, ws);
    TrimStartCuts(s, ws);
    TrimEndCuts(t, ws);
    i, j := |s| - |t|, |s| - |t| + |r|;
    assert t[|r|..] == s[j..];
  }

  /** Trimming yields the empty string exactly when the input is all
      whitespace. */
  lemma {:induction false} TrimEmptyIff(s: string, ws: Whitespace)
    ensures Trim(s, ws) == [] <==> AllIn(s, ws)
  {
    var i, j := TrimCuts(s, ws);
    if Trim(s, ws) == [] {
      assert s == s[..i] + s[j..];
      forall k | 0 <= k < |s| ensures IsSpace(ws, s[k]) {
        if k < i { assert s[k] == s[..i][k]; } else { assert s[k] == s[j..][k - j]; }
      }
    } else {
      assert s[i] == Trim(s, ws)[0];
    }
  }

  /** A string with no whitespace at either end is left as it is. */
  lemma {:induction false} TrimOfTrimmed(s: string, ws: Whitespace)
    requires IsTrimmed(s, ws)
    ensures Trim(s, ws) == s
  {
    assert TrimStart(s, ws) == s;
    assert TrimEnd(s, ws) == s;
  }

  /** Trimming twice is trimming once. */
  lemma {:induction false} TrimIdempotent(s: string, ws: Whitespace)
    ensures Trim(Trim(s, ws), ws) == Trim(s, ws)
  {
    TrimOfTrimmed(Trim(s, ws), ws);
  }
}
