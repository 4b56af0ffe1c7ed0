/**
 * Character classes and string operations shared by the model.
 *
 * The source relies on JavaScript's regular expressions and string methods.
 * This module restricts them to ASCII: `\s` and `trim` see the six ASCII white
 * space characters, `\w` is [A-Za-z0-9_], and `toLowerCase` maps A-Z to a-z.
 */
module Text {

  // ---------- character classes ----------

  /** The ASCII members of JavaScript's `\s` (space, \t, \n, \v, \f, \r). */
  predicate IsSpace(c: char) {
    c == ' ' || c == '\t' || c == '\n' || c == '\r' || c == '\U{000B}' || c == '\U{000C}'
  }

  /** The ASCII line terminators: where `^`/`$` match in multiline mode and where `.` stops. */
  predicate IsLineTerminator(c: char) {
    c == '\n' || c == '\r'
  }

  predicate IsDigit(c: char) {
    '0' <= c <= '9'
  }

  predicate IsLowerAlpha(c: char) {
    'a' <= c <= 'z'
  }

  predicate IsUpperAlpha(c: char) {
    'A' <= c <= 'Z'
  }

  /** JavaScript's `\w`: [A-Za-z0-9_]. */
  predicate IsWordChar(c: char) {
    IsLowerAlpha(c) || IsUpperAlpha(c) || IsDigit(c) || c == '_'
  }

  function LowerChar(c: char): (r: char)
    ensures !IsUpperAlpha(r)
    ensures IsUpperAlpha(c) || r == c
  {
    if IsUpperAlpha(c) then (c as int + 32) as char else c
  }

  /** `toLowerCase` on ASCII. */
  function Lower(s: string): (r: string)
    ensures |r| == |s|
  {
    seq(|s|, i requires 0 <= i < |s| => LowerChar(s[i]))
  }

  lemma LowerAt(s: string, i: int)
    requires 0 <= i < |s|
    ensures Lower(s)[i] == LowerChar(s[i])
  {
  }

  lemma LowerIdempotent(s: string)
    ensures Lower(Lower(s)) == Lower(s)
  {
  }

  lemma LowerSlice(s: string, i: int, j: int)
    requires 0 <= i <= j <= |s|
    ensures Lower(s[i..j]) == Lower(s)[i..j]
  {
  }

  lemma LowerConcat(a: string, b: string)
    ensures Lower(a + b) == Lower(a) + Lower(b)
  {
  }

  // ---------- trimming ----------

  predicate IsTrimmed(s: string) {
    s == [] || (!IsSpace(s[0]) && !IsSpace(s[|s| - 1]))
  }

  function TrimStart(s: string): (r: string)
    ensures |r| <= |s| && r == s[|s| - |r|..]
    ensures r == [] || !IsSpace(r[0])
    ensures forall i :: 0 <= i < |s| - |r| ==> IsSpace(s[i])
  {
    if s != [] && IsSpace(s[0]) then TrimStart(s[1..]) else s
  }

  function TrimEnd(s: string): (r: string)
    ensures |r| <= |s| && r == s[..|r|]
    ensures r == [] || !IsSpace(r[|r| - 1])
    ensures forall i :: |r| <= i < |s| ==> IsSpace(s[i])
  {
    if s != [] && IsSpace(s[|s| - 1]) then TrimEnd(s[..|s| - 1]) else s
  }

  /** `String.prototype.trim`. */
  function Trim(s: string): (r: string)
    ensures IsTrimmed(r)
    ensures |r| <= |s|
    ensures forall c :: c in r ==> c in s
  {
    var t := TrimStart(s);
    var r := TrimEnd(t);
    assert r == [] || r[0] == t[0];
    r
  }

  /** Skipping white space in front of text that does not start with white space. */
  lemma {:induction false} TrimStartAfterSpaces(lead: string, x: string)
    requires forall i :: 0 <= i < |lead| ==> IsSpace(lead[i])
    requires x == [] || !IsSpace(x[0])
    ensures TrimStart(lead + x) == x
    decreases |lead|
  {
    if lead != [] {
      var y := lead + x;
      assert y[0] == lead[0] && y[1..] == lead[1..] + x;
      assert TrimStart(y) == TrimStart(y[1..]);
      TrimStartAfterSpaces(lead[1..], x);
    } else {
      assert lead + x == x;
      assert TrimStart(x) == x;
    }
  }

  /** A string with no white space at its ends is its own trim. */
  lemma TrimOfTrimmed(s: string)
    requires IsTrimmed(s)
    ensures Trim(s) == s
  {
  }

  /** The trim is empty exactly when the string is all white space. */
  lemma TrimEmptyIff(s: string)
    ensures Trim(s) == [] <==> forall i :: 0 <= i < |s| ==> IsSpace(s[i])
  {
    var t := TrimStart(s);
    if t != [] {
      assert !IsSpace(t[0]) && t[0] == s[|s| - |t|];
      assert Trim(s) != [];
    }
  }

  lemma TrimIdempotent(s: string)
    ensures Trim(Trim(s)) == Trim(s)
  {
    TrimOfTrimmed(Trim(s));
  }

  predicate IsBlank(s: string) {
    Trim(s) == []
  }

  // ---------- substrings and prefixes ----------

  /** t occurs in s starting at index i. */
  predicate OccursAt(s: string, t: string, i: int) {
    0 <= i && i + |t| <= |s| && s[i..i + |t|] == t
  }

  /** `s.includes(t)`. */
  predicate Contains(s: string, t: string) {
    exists i :: 0 <= i <= |s| && OccursAt(s, t, i)
  }

  predicate IsPrefix(p: string, s: string) {
    |p| <= |s| && s[..|p|] == p
  }

  lemma ContainsSelf(s: string)
    ensures Contains(s, s)
  {
    assert OccursAt(s, s, 0);
  }

  lemma ContainsEmpty(s: string)
    ensures Contains(s, "")
  {
    assert OccursAt(s, "", 0);
  }

  // ---------- split and join ----------

  function IndexOf(s: string, c: char): (i: nat)
    requires c in s
    ensures i < |s| && s[i] == c && c !in s[..i]
  {
    if s[0] == c then 0 else 1 + IndexOf(s[1..], c)
  }

  lemma IndexOfAfter(a: string, c: char, b: string)
    requires c !in a
    ensures c in a + [c] + b && IndexOf(a + [c] + b, c) == |a|
  {
    var s := a + [c] + b;
    assert s[|a|] == c;
    assert s[..|a|] == a;
  }

  /** The first occurrence is the one with no occurrence before it. */
  lemma IndexOfAt(s: string, c: char, i: nat)
    requires i < |s| && s[i] == c && c !in s[..i]
    ensures c in s && IndexOf(s, c) == i
  {
    assert s[i] in s;
  }

  /** `s.split(sep)` with a one-character separator. */
  function Split(s: string, sep: char): (parts: seq<string>)
    ensures |parts| >= 1
    ensures forall i :: 0 <= i < |parts| ==> sep !in parts[i]
    decreases |s|
  {
    if sep in s then
      var i := IndexOf(s, sep);
      [s[..i]] + Split(s[i + 1..], sep)
    else
      [s]
  }

  /** `parts.join(sep)` with a one-character separator. */
  function Join(parts: seq<string>, sep: char): string
  {
    if |parts| == 0 then ""
    else if |parts| == 1 then parts[0]
    else parts[0] + [sep] + Join(parts[1..], sep)
  }

  /** Joining the pieces of a split gives back the string. */
  lemma {:induction false} JoinSplit(s: string, sep: char)
    ensures Join(Split(s, sep), sep) == s
    decreases |s|
  {
    if sep in s {
      var i := IndexOf(s, sep);
      JoinSplit(s[i + 1..], sep);
      var rest := Split(s[i + 1..], sep);
      assert Split(s, sep) == [s[..i]] + rest;
      assert s == s[..i] + [sep] + s[i + 1..];
    }
  }

  /** Splitting a join of separator-free pieces gives back the pieces. */
  lemma {:induction false} SplitJoin(parts: seq<string>, sep: char)
    requires |parts| >= 1
    requires forall i :: 0 <= i < |parts| ==> sep !in parts[i]
    ensures Split(Join(parts, sep), sep) == parts
  {
    if |parts| > 1 {
      var tail := parts[1..];
      assert forall i :: 0 <= i < |tail| ==> tail[i] == parts[i + 1];
      SplitJoin(tail, sep);
      assert sep !in parts[0];
      SplitAfter(parts[0], sep, Join(tail, sep));
      assert parts == [parts[0]] + tail;
    }
  }

  /** The first piece of a split ends at the first separator. */
  lemma SplitAfter(a: string, sep: char, b: string)
    requires sep !in a
    ensures Split(a + [sep] + b, sep) == [a] + Split(b, sep)
  {
    var s := a + [sep] + b;
    IndexOfAfter(a, sep, b);
    assert s[..|a|] == a;
    assert s[|a| + 1..] == b;
  }

  /** A joined string contains the separator only where two pieces meet. */
  lemma {:induction false} JoinHasNoSep(parts: seq<string>, sep: char, c: char)
    requires forall i :: 0 <= i < |parts| ==> c !in parts[i]
    requires c != sep
    ensures c !in Join(parts, sep)
  {
    if |parts| > 1 {
      JoinHasNoSep(parts[1..], sep, c);
    }
  }

  // ---------- numbers ----------

  function DigitChar(d: nat): (c: char)
    requires d < 10
    ensures IsDigit(c)
  {
    ('0' as int + d) as char
  }

  function DigitValue(c: char): (d: nat)
    requires IsDigit(c)
    ensures d < 10
  {
    c as int - '0' as int
  }

  predicate AllDigits(s: string) {
    forall i :: 0 <= i < |s| ==> IsDigit(s[i])
  }

  /** Decimal rendering of a natural number, as `String(n)` gives it. */
  function NatToString(n: nat): (s: string)
    ensures |s| >= 1 && AllDigits(s)
  {
    if n < 10 then [DigitChar(n)] else NatToString(n / 10) + [DigitChar(n % 10)]
  }

  /** The value of a string of decimal digits. */
  function DecimalValue(s: string): nat
    requires AllDigits(s)
  {
    if s == [] then 0 else DecimalValue(s[..|s| - 1]) * 10 + DigitValue(s[|s| - 1])
  }

  lemma {:induction false} DecimalOfNatToString(n: nat)
    ensures DecimalValue(NatToString(n)) == n
  {
    if n >= 10 {
      DecimalOfNatToString(n / 10);
      var s := NatToString(n);
      assert s[..|s| - 1] == NatToString(n / 10);
    }
  }

  lemma NatToStringInjective(a: nat, b: nat)
    requires NatToString(a) == NatToString(b)
    ensures a == b
  {
    DecimalOfNatToString(a);
    DecimalOfNatToString(b);
  }

  /** `String(i)` for an integer. */
  function IntToString(i: int): string
  {
    if i < 0 then "-" + NatToString(-i) else NatToString(i)
  }

  /** Distinct integers print differently: a '-' is never a digit. */
  lemma IntToStringInjective(a: int, b: int)
    requires IntToString(a) == IntToString(b)
    ensures a == b
  {
    assert !IsDigit('-');
    assert a < 0 <==> IntToString(a)[0] == '-';
    assert b < 0 <==> IntToString(b)[0] == '-';
    if a < 0 && b < 0 {
      assert NatToString(-a) == IntToString(a)[1..];
      NatToStringInjective(-a, -b);
    } else if a >= 0 && b >= 0 {
      NatToStringInjective(a, b);
    }
  }

  /** `s.padStart(width, c)`. */
  function PadStart(s: string, width: nat, c: char): (r: string)
    ensures |r| == if |s| >= width then |s| else width
    ensures r[|r| - |s|..] == s
    ensures forall i :: 0 <= i < |r| - |s| ==> r[i] == c
  {
    if |s| >= width then s else seq(width - |s|, _ => c) + s
  }

  // ---------- runs and removals ----------

  /** Drops the leading run of characters satisfying p. */
  function SkipRun(s: string, p: char -> bool): (r: string)
    ensures |r| <= |s| && r == s[|s| - |r|..]
    ensures r == [] || !p(r[0])
    ensures forall i :: 0 <= i < |s| - |r| ==> p(s[i])
  {
    if s != [] && p(s[0]) then SkipRun(s[1..], p) else s
  }

  /** `s.replace(/P+/g, rep)`: every maximal run of P-characters becomes one rep. */
  function ReplaceRuns(s: string, p: char -> bool, rep: char): (r: string)
    ensures |r| <= |s|
    ensures forall i :: 0 <= i < |r| ==> p(r[i]) ==> r[i] == rep
    ensures forall i :: 0 <= i < |r| - 1 ==> !(p(r[i]) && p(r[i + 1]))
    ensures forall c :: c in r ==> c == rep || (c in s && !p(c))
    ensures s != [] && !p(s[0]) ==> r != [] && r[0] == s[0]
    ensures s != [] && p(s[0]) ==> r != [] && r[0] == rep
    decreases |s|
  {
    if s == [] then []
    else if p(s[0]) then
      var rest := SkipRun(s, p);
      var tail := ReplaceRuns(rest, p, rep);
      assert tail != [] ==> !p(tail[0]);
      [rep] + tail
    else
      [s[0]] + ReplaceRuns(s[1..], p, rep)
  }

  /** A string is left alone by ReplaceRuns when it holds no P-character. */
  lemma {:induction false} ReplaceRunsNoop(s: string, p: char -> bool, rep: char)
    requires forall i :: 0 <= i < |s| ==> !p(s[i])
    ensures ReplaceRuns(s, p, rep) == s
  {
    if s != [] {
      ReplaceRunsNoop(s[1..], p, rep);
    }
  }

  /** Runs of length one that are already rep are left alone too. */
  lemma {:induction false} ReplaceRunsOfSingles(s: string, p: char -> bool, rep: char)
    requires forall i :: 0 <= i < |s| ==> p(s[i]) ==> s[i] == rep
    requires forall i :: 0 <= i < |s| - 1 ==> !(p(s[i]) && p(s[i + 1]))
    ensures ReplaceRuns(s, p, rep) == s
    decreases |s|
  {
    if s != [] {
      var t := s[1..];
      assert forall i :: 0 <= i < |t| ==> t[i] == s[i + 1];
      ReplaceRunsOfSingles(t, p, rep);
      assert s == [s[0]] + t;
      if p(s[0]) {
        assert t == [] || !p(t[0]);
        assert SkipRun(t, p) == t;
        assert SkipRun(s, p) == t;
        assert ReplaceRuns(s, p, rep) == [rep] + ReplaceRuns(t, p, rep);
      } else {
        assert ReplaceRuns(s, p, rep) == [s[0]] + ReplaceRuns(t, p, rep);
      }
    }
  }

  /** `s.replace(/[P]/g, '')`: every P-character removed. */
  function RemoveChars(s: string, p: char -> bool): (r: string)
    ensures |r| <= |s|
    ensures forall i :: 0 <= i < |r| ==> !p(r[i])
    ensures forall c :: c in r ==> c in s
  {
    if s == [] then []
    else if p(s[0]) then RemoveChars(s[1..], p)
    else [s[0]] + RemoveChars(s[1..], p)
  }

  lemma {:induction false} RemoveCharsNoop(s: string, p: char -> bool)
    requires forall i :: 0 <= i < |s| ==> !p(s[i])
    ensures RemoveChars(s, p) == s
  {
    if s != [] {
      RemoveCharsNoop(s[1..], p);
    }
  }

  /** No two adjacent white-space characters. */
  predicate NoSpaceRun(s: string) {
    forall i :: 0 <= i < |s| - 1 ==> !(IsSpace(s[i]) && IsSpace(s[i + 1]))
  }

  /** Trim keeps a contiguous slice, so a string without white-space runs keeps none. */
  lemma TrimIsSlice(s: string)
    ensures NoSpaceRun(s) ==> NoSpaceRun(Trim(s))
    ensures (forall i :: 0 <= i < |s| ==> IsSpace(s[i]) ==> s[i] == ' ') ==>
            (forall i :: 0 <= i < |Trim(s)| ==> IsSpace(Trim(s)[i]) ==> Trim(s)[i] == ' ')
  {
    var a := TrimOffset(s);
    var r := Trim(s);
    if NoSpaceRun(s) {
      forall i | 0 <= i < |r| - 1
        ensures !(IsSpace(r[i]) && IsSpace(r[i + 1]))
      {
        assert r[i] == s[a + i] && r[i + 1] == s[a + i + 1];
      }
    }
    if forall i :: 0 <= i < |s| ==> IsSpace(s[i]) ==> s[i] == ' ' {
      forall i | 0 <= i < |r| && IsSpace(r[i])
        ensures r[i] == ' '
      {
        assert r[i] == s[a + i];
      }
    }
  }

  /** Where the trimmed string starts in s. */
  lemma TrimOffset(s: string) returns (a: nat)
    ensures a + |Trim(s)| <= |s|
    ensures forall i :: 0 <= i < |Trim(s)| ==> Trim(s)[i] == s[a + i]
  {
    var t := TrimStart(s);
    a := |s| - |t|;
    var r := TrimEnd(t);
    assert Trim(s) == r;
    forall i | 0 <= i < |r|
      ensures r[i] == s[a + i]
    {
      assert r[i] == t[i];
    }
  }
}
