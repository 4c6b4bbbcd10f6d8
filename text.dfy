/** The .NET string operations the parser relies on: Trim, StartsWith, Contains, Split,
    Replace with an empty replacement, and the integer parse of a digit string. */
module Text {
  import opened Wrappers

  /** char.IsWhiteSpace: the Unicode space, line and paragraph separators plus the
      control characters U+0009 to U+000D and U+0085. */
  predicate IsWhiteSpace(c: char) {
    c == ' ' || ('\t' <= c <= '\r') || c == '\U{85}' || c == '\U{A0}' || c == '\U{1680}'
    || ('\U{2000}' <= c <= '\U{200A}') || c == '\U{2028}' || c == '\U{2029}'
    || c == '\U{202F}' || c == '\U{205F}' || c == '\U{3000}'
  }

  predicate AllWhiteSpace(s: string) {
    forall i :: 0 <= i < |s| ==> IsWhiteSpace(s[i])
  }

  /** Neither end of `s` is a white-space character. */
  predicate IsTrimmed(s: string) {
    s == [] || (!IsWhiteSpace(s[0]) && !IsWhiteSpace(s[|s| - 1]))
  }

  /** String.TrimStart(): `s` with its leading white space removed. */
  function TrimStart(s: string): string
    decreases |s|
  {
    if |s| > 0 && IsWhiteSpace(s[0]) then TrimStart(s[1..]) else s
  }

  /** TrimStart keeps the longest suffix that does not start with white space. */
  lemma {:induction false} TrimStartSpec(s: string)
    ensures var r := TrimStart(s);
            && |r| <= |s| && r == s[|s| - |r|..]
            && AllWhiteSpace(s[..|s| - |r|])
            && (r == [] || !IsWhiteSpace(r[0]))
    decreases |s|
  {
    if |s| > 0 && IsWhiteSpace(s[0]) {
      TrimStartSpec(s[1..]);
      var r := TrimStart(s[1..]);
      assert s[1..][|s| - 1 - |r|..] == s[|s| - |r|..];
      assert forall i :: 1 <= i < |s| - |r| ==> s[i] == s[1..][..|s| - 1 - |r|][i - 1];
    }
  }

  /** String.TrimEnd(): `s` with its trailing white space removed. */
  function TrimEnd(s: string): string
    decreases |s|
  {
    if |s| > 0 && IsWhiteSpace(s[|s| - 1]) then TrimEnd(s[..|s| - 1]) else s
  }

  /** TrimEnd keeps the longest prefix that does not end with white space. */
  lemma {:induction false} TrimEndSpec(s: string)
    ensures var r := TrimEnd(s);
            && |r| <= |s| && r == s[..|r|]
            && AllWhiteSpace(s[|r|..])
            && (r == [] || !IsWhiteSpace(r[|r| - 1]))
    decreases |s|
  {
    if |s| > 0 && IsWhiteSpace(s[|s| - 1]) {
      TrimEndSpec(s[..|s| - 1]);
      var r := TrimEnd(s[..|s| - 1]);
      assert s[..|s| - 1][..|r|] == s[..|r|];
      assert forall i :: |r| <= i < |s| - 1 ==> s[i] == s[..|s| - 1][|r|..][i - |r|];
    }
  }

  /** String.Trim(): `s` without white space at either end; what is cut off is white space. */
  function Trim(s: string): (r: string)
    ensures IsTrimmed(r) && |r| <= |s|
    ensures forall c :: c in r ==> c in s
  {
    TrimKeepsCharacters(s);
    TrimEnd(TrimStart(s))
  }

  /** Both trims keep a contiguous piece of the string, and the result is trimmed. */
  lemma TrimKeepsCharacters(s: string)
    ensures IsTrimmed(TrimEnd(TrimStart(s))) && |TrimEnd(TrimStart(s))| <= |s|
    ensures forall c :: c in TrimEnd(TrimStart(s)) ==> c in s
  {
    var t := TrimStart(s);
    var r := TrimEnd(t);
    TrimStartSpec(s);
    TrimEndSpec(t);
    if r != [] {
      assert r[0] == t[0];
    }
    var a := |s| - |t|;
    assert r == s[a..a + |r|];
    SliceCharacters(s, a, a + |r|);
  }

  /** Every character of a slice is a character of the string. */
  lemma SliceCharacters(s: string, a: nat, b: nat)
    requires a <= b <= |s|
    ensures forall c :: c in s[a..b] ==> c in s
  {
    forall c | c in s[a..b] ensures c in s {
      var i :| 0 <= i < b - a && s[a..b][i] == c;
      assert s[a + i] == c;
    }
  }

  /** TrimStart keeps the last character of a string that does not end in white space. */
  lemma {:induction false} TrimStartKeepsLast(s: string)
    requires s != [] && !IsWhiteSpace(s[|s| - 1])
    ensures TrimStart(s) != [] && TrimStart(s)[|TrimStart(s)| - 1] == s[|s| - 1]
    decreases |s|
  {
    if IsWhiteSpace(s[0]) {
      assert s[1..][|s| - 2] == s[|s| - 1];
      TrimStartKeepsLast(s[1..]);
    }
  }

  /** Trimming a string that is already trimmed changes nothing. */
  lemma {:induction false} TrimOfTrimmed(s: string)
    requires IsTrimmed(s)
    ensures Trim(s) == s
  {
    assert TrimStart(s) == s;
    assert TrimEnd(s) == s;
  }

  /** One white-space character after a trimmed, non-empty string is what Trim removes. */
  lemma TrimOfTrailingSpace(s: string, c: char)
    requires s != [] && IsTrimmed(s) && IsWhiteSpace(c)
    ensures Trim(s + [c]) == s
  {
    var t := s + [c];
    assert TrimStart(t) == t;
    assert t[..|t| - 1] == s;
    assert TrimEnd(s) == s;
  }

  /** White space in front of a string does not survive TrimStart. */
  lemma {:induction false} TrimStartSkipsSpace(w: string, s: string)
    requires AllWhiteSpace(w)
    ensures TrimStart(w + s) == TrimStart(s)
    decreases |w|
  {
    if w != [] {
      assert (w + s)[1..] == w[1..] + s;
      TrimStartSkipsSpace(w[1..], s);
    } else {
      assert w + s == s;
    }
  }

  /** Trimming a string that does not end in white space only trims its start. */
  lemma TrimOfNonSpaceEnd(s: string)
    requires s != [] && !IsWhiteSpace(s[|s| - 1])
    ensures Trim(s) == TrimStart(s)
  {
    TrimStartKeepsLast(s);
  }

  /** White space in front of a string does not survive Trim. */
  lemma TrimSkipsSpace(w: string, s: string)
    requires AllWhiteSpace(w)
    ensures Trim(w + s) == Trim(s)
  {
    TrimStartSkipsSpace(w, s);
  }

  /** Cutting the last character off a string and off one of its suffixes. */
  lemma DropLastOfSuffix(x: string, a: nat)
    requires a < |x|
    ensures x[..|x| - 1] == x[..a] + x[a..|x| - 1]
    ensures x[a..][..|x| - a - 1] == x[a..|x| - 1]
  {
  }

  /** String.StartsWith(p), compared character by character. */
  predicate StartsWith(s: string, p: string) {
    |p| <= |s| && s[..|p|] == p
  }

  /** String.EndsWith for a one-character suffix. */
  predicate EndsWith(s: string, c: char) {
    |s| > 0 && s[|s| - 1] == c
  }

  /** String.Contains(p), scanning the start positions from left to right. */
  predicate Contains(s: string, p: string)
    decreases |s|
  {
    StartsWith(s, p) || (|s| > 0 && Contains(s[1..], p))
  }

  /** `p` occurs in `s` starting at position `i`. */
  predicate OccursAt(s: string, p: string, i: int) {
    0 <= i <= |s| - |p| && s[i..i + |p|] == p
  }

  /** Contains holds exactly when `p` occurs at some position of `s`. */
  lemma {:induction false} ContainsIff(s: string, p: string)
    ensures Contains(s, p) <==> exists i :: OccursAt(s, p, i)
    decreases |s|
  {
    if |s| > 0 {
      ContainsIff(s[1..], p);
      if Contains(s[1..], p) {
        var i :| OccursAt(s[1..], p, i);
        assert s[i + 1..i + 1 + |p|] == s[1..][i..i + |p|];
        assert OccursAt(s, p, i + 1);
      }
      if i :| OccursAt(s, p, i) && i > 0 {
        assert s[1..][i - 1..i - 1 + |p|] == s[i..i + |p|];
        assert OccursAt(s[1..], p, i - 1);
      }
      assert StartsWith(s, p) <==> OccursAt(s, p, 0);
    } else {
      assert StartsWith(s, p) <==> OccursAt(s, p, 0);
    }
  }

  /** Position of the first `c` in `s`. */
  function IndexOf(s: string, c: char): (i: nat)
    requires c in s
    ensures i < |s| && s[i] == c && c !in s[..i]
  {
    if s[0] == c then 0 else 1 + IndexOf(s[1..], c)
  }

  /** Glues pieces back together with the separator between consecutive pieces. */
  function Join(pieces: seq<string>, sep: char): string
    requires |pieces| > 0
  {
    if |pieces| == 1 then pieces[0] else pieces[0] + [sep] + Join(pieces[1..], sep)
  }

  /** String.Split(sep): the maximal separator-free pieces, empty pieces included. */
  function Split(s: string, sep: char): (r: seq<string>)
    ensures |r| > 0
    ensures forall k :: 0 <= k < |r| ==> sep !in r[k]
    ensures Join(r, sep) == s
    decreases |s|
  {
    if sep !in s then [s]
    else
      var i := IndexOf(s, sep);
      var rest := Split(s[i + 1..], sep);
      assert s == s[..i] + [sep] + s[i + 1..];
      [s[..i]] + rest
  }

  /** Splitting a join of separator-free pieces gives the pieces back. */
  lemma {:induction false} SplitJoin(pieces: seq<string>, sep: char)
    requires |pieces| > 0
    requires forall k :: 0 <= k < |pieces| ==> sep !in pieces[k]
    ensures Split(Join(pieces, sep), sep) == pieces
    decreases |pieces|
  {
    var s := Join(pieces, sep);
    if |pieces| == 1 {
    } else {
      var tail := Join(pieces[1..], sep);
      assert s == pieces[0] + [sep] + tail;
      assert s[|pieces[0]|] == sep;
      assert s[..|pieces[0]|] == pieces[0];
      assert IndexOf(s, sep) == |pieces[0]|;
      assert s[|pieces[0]| + 1..] == tail;
      SplitJoin(pieces[1..], sep);
    }
  }

  /** String.Replace(p, ""): deletes the occurrences of `p` found scanning left to right. */
  function RemoveAll(s: string, p: string): (r: string)
    requires |p| > 0
    ensures |r| <= |s|
    decreases |s|
  {
    if |s| == 0 then []
    else if StartsWith(s, p) then RemoveAll(s[|p|..], p)
    else [s[0]] + RemoveAll(s[1..], p)
  }

  /** A string with no occurrence of `p` is left as it is. */
  lemma {:induction false} RemoveAllAbsent(s: string, p: string)
    requires |p| > 0 && !Contains(s, p)
    ensures RemoveAll(s, p) == s
    decreases |s|
  {
    if |s| > 0 {
      RemoveAllAbsent(s[1..], p);
      assert s == [s[0]] + s[1..];
    }
  }

  /** Whether `p` starts a string depends only on its first |p| characters. */
  lemma StartsWithOfPrefix(s: string, t: string, p: string)
    requires |p| <= |t| <= |s| && t == s[..|t|]
    ensures StartsWith(s, p) <==> StartsWith(t, p)
  {
    assert s[..|p|] == t[..|p|];
  }

  /** A suffix `p` whose only occurrence is at the very end is cut off, leaving `name`. */
  lemma {:induction false} RemoveAllSuffix(name: string, p: string)
    requires |p| > 0 && !Contains(name + p[..|p| - 1], p)
    ensures RemoveAll(name + p, p) == name
    decreases |name|
  {
    var s := name + p;
    if name == [] {
      assert s == p && StartsWith(s, p);
      assert s[|p|..] == [];
    } else {
      var t := name + p[..|p| - 1];
      assert t == s[..|t|];
      StartsWithOfPrefix(s, t, p);
      assert !StartsWith(s, p);
      assert t[1..] == name[1..] + p[..|p| - 1];
      assert s[1..] == name[1..] + p;
      RemoveAllSuffix(name[1..], p);
    }
  }

  predicate IsDigit(c: char) { '0' <= c <= '9' }

  predicate AllDigits(s: string) {
    forall i :: 0 <= i < |s| ==> IsDigit(s[i])
  }

  /** Decimal value of a digit string, most significant digit first. */
  function DigitsValue(s: string): nat
    requires AllDigits(s)
  {
    if s == [] then 0 else 10 * DigitsValue(s[..|s| - 1]) + (s[|s| - 1] as int - '0' as int)
  }

  /** The integer parse applied to the numeric captures: a non-empty digit string
      gives its value, anything else makes the parse throw (None). */
  function ToInt(s: string): (r: Option<nat>)
    ensures r.Some? <==> |s| > 0 && AllDigits(s)
  {
    if |s| > 0 && AllDigits(s) then Some(DigitsValue(s)) else None
  }

  /** Decimal rendering of a natural number, without leading zeros. */
  function NatToString(n: nat): (s: string)
    ensures |s| > 0 && AllDigits(s)
  {
    if n < 10 then [('0' as int + n) as char]
    else NatToString(n / 10) + [('0' as int + n % 10) as char]
  }

  /** ToInt reads back what NatToString writes. */
  lemma {:induction false} ToIntNatToString(n: nat)
    ensures ToInt(NatToString(n)) == Some(n)
  {
    var s := NatToString(n);
    if n >= 10 {
      ToIntNatToString(n / 10);
      assert s[..|s| - 1] == NatToString(n / 10);
      assert s[|s| - 1] as int - '0' as int == n % 10;
      assert DigitsValue(s[..|s| - 1]) == n / 10;
      assert DigitsValue(s) == 10 * (n / 10) + n % 10;
    } else {
      assert s[..|s| - 1] == [];
      assert DigitsValue(s) == n;
    }
  }
}
