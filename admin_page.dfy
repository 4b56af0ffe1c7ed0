/**
 * app/admin/leetcode/page.tsx: the admin list of LeetCode notes. The page
 * reads its page number from the `page` search parameter and prints each
 * note's dates as `YYYY-MM-DD` in UTC.
 */
module AdminPage {
  import opened Wrappers
  import opened Text
  import opened Dates

  // ---------- parseInt ----------

  /** The longest prefix of decimal digits. */
  function LeadingDigits(s: string): (r: string)
    ensures AllDigits(r) && |r| <= |s| && r == s[..|r|]
    ensures |r| == |s| || !IsDigit(s[|r|])
  {
    if s != [] && IsDigit(s[0]) then [s[0]] + LeadingDigits(s[1..]) else []
  }

  /** A sign, then the leading digits: NaN, written `None`, when there is no digit. */
  function ParseSigned(t: string): Option<int> {
    var signed := t != [] && (t[0] == '-' || t[0] == '+');
    var ds := LeadingDigits(if signed then t[1..] else t);
    var v: int := if ds == [] then 0 else DecimalValue(ds);
    if ds == [] then None
    else if signed && t[0] == '-' then Some(-v)
    else Some(v)
  }

  /**
   * `parseInt(s, 10)`: leading white space is skipped, one optional sign is
   * read, then the longest run of digits.
   */
  function ParseInt(s: string): Option<int> {
    ParseSigned(TrimStart(s))
  }

  /**
   * `parsePage(s)`: the leading integer of the parameter when it is at
   * least 1, otherwise 1; an absent parameter reads as "1".
   */
  function ParsePage(s: Option<string>): (page: int)
    ensures page >= 1
    ensures var n := ParseInt(s.GetOr("1"));
            page == 1 || (n.Some? && page == n.value)
  {
    var n := ParseInt(s.GetOr("1"));
    if n.Some? && n.value >= 1 then n.value else 1
  }

  // ---------- what parsePage gives ----------

  /** The digit run of digits followed by a non-digit is those digits. */
  lemma {:induction false} LeadingDigitsOf(ds: string, rest: string)
    requires AllDigits(ds)
    requires rest == [] || !IsDigit(rest[0])
    ensures LeadingDigits(ds + rest) == ds
    decreases |ds|
  {
    if ds != [] {
      assert (ds + rest)[0] == ds[0];
      assert (ds + rest)[1..] == ds[1..] + rest;
      LeadingDigitsOf(ds[1..], rest);
      assert ds == [ds[0]] + ds[1..];
    } else {
      assert ds + rest == rest;
    }
  }

  /** Digits after an optional "+": their value. */
  lemma ParseSignedOfDigits(plus: bool, ds: string, rest: string)
    requires AllDigits(ds) && ds != ""
    requires rest == [] || !IsDigit(rest[0])
    ensures ParseSigned((if plus then "+" else "") + ds + rest) == Some(DecimalValue(ds))
  {
    if plus {
      ParseSignedOfPlusDigits("+" + ds + rest, ds, rest);
      assert "+" + ds + rest == (if plus then "+" else "") + ds + rest;
    } else {
      ParseSignedOfBareDigits(ds, rest);
      assert ds + rest == (if plus then "+" else "") + ds + rest;
    }
  }

  lemma ParseSignedOfPlusDigits(t: string, ds: string, rest: string)
    requires AllDigits(ds) && ds != ""
    requires rest == [] || !IsDigit(rest[0])
    requires t != [] && t[0] == '+' && t[1..] == ds + rest
    ensures ParseSigned(t) == Some(DecimalValue(ds))
  {
    LeadingDigitsOf(ds, rest);
  }

  lemma ParseSignedOfBareDigits(ds: string, rest: string)
    requires AllDigits(ds) && ds != ""
    requires rest == [] || !IsDigit(rest[0])
    ensures ParseSigned(ds + rest) == Some(DecimalValue(ds))
  {
    LeadingDigitsOf(ds, rest);
    assert (ds + rest)[0] == ds[0];
  }

  /** Digits after a "-": their value negated; a lone "-" is NaN. */
  lemma ParseSignedOfNegative(t: string, ds: string, rest: string)
    requires AllDigits(ds)
    requires rest == [] || !IsDigit(rest[0])
    requires t != [] && t[0] == '-' && t[1..] == ds + rest
    ensures ParseSigned(t) == if ds == [] then None else Some(0 - DecimalValue(ds) as int)
  {
    LeadingDigitsOf(ds, rest);
  }

  /** White space, optional "+", digits, then anything not a digit: the digits' value, if at least 1. */
  lemma ParsePageOfDigits(lead: string, plus: bool, ds: string, rest: string)
    requires forall i :: 0 <= i < |lead| ==> IsSpace(lead[i])
    requires AllDigits(ds) && ds != ""
    requires rest == [] || !IsDigit(rest[0])
    ensures var s := lead + (if plus then "+" else "") + ds + rest;
            ParsePage(Some(s)) == if DecimalValue(ds) >= 1 then DecimalValue(ds) else 1
  {
    var body := (if plus then "+" else "") + ds + rest;
    assert lead + (if plus then "+" else "") + ds + rest == lead + body;
    assert body[0] == if plus then '+' else ds[0];
    TrimStartAfterSpaces(lead, body);
    ParseSignedOfDigits(plus, ds, rest);
  }

  /** A negative number, or zero with a minus sign, gives page 1. */
  lemma ParsePageOfNegative(lead: string, ds: string, rest: string)
    requires forall i :: 0 <= i < |lead| ==> IsSpace(lead[i])
    requires AllDigits(ds)
    requires rest == [] || !IsDigit(rest[0])
    ensures ParsePage(Some(lead + "-" + ds + rest)) == 1
  {
    var body := "-" + ds + rest;
    assert lead + "-" + ds + rest == lead + body;
    assert body[0] == '-' && body[1..] == ds + rest;
    TrimStartAfterSpaces(lead, body);
    ParseSignedOfNegative(body, ds, rest);
  }

  /** After white space and an optional sign there is no digit: `parseInt` gives NaN. */
  predicate NoLeadingNumber(s: string) {
    var t := TrimStart(s);
    if t != [] && (t[0] == '-' || t[0] == '+') then |t| == 1 || !IsDigit(t[1])
    else t == [] || !IsDigit(t[0])
  }

  /** A non-numeric parameter gives page 1, and `parseInt` finds no number in exactly those. */
  lemma ParsePageOfNonNumeric(s: string)
    ensures NoLeadingNumber(s) <==> ParseInt(s).None?
    ensures NoLeadingNumber(s) ==> ParsePage(Some(s)) == 1
  {
  }

  /** An absent parameter is page 1. */
  lemma ParsePageAbsent()
    ensures ParsePage(None) == 1
  {
    var ds := "1";
    assert AllDigits(ds) && ds[..0] == "" && DecimalValue(ds) == 1;
    var s := "" + (if false then "+" else "") + ds + "";
    assert s == "1";
    ParsePageOfDigits("", false, ds, "");
    assert ParsePage(Some(s)) == 1;
  }

  /** `parsePage(String(n))` is `n` for every page number `n` >= 1: the page links read back. */
  lemma ParsePageOfNatToString(n: nat)
    requires n >= 1
    ensures ParsePage(Some(NatToString(n))) == n
  {
    var ds := NatToString(n);
    DecimalOfNatToString(n);
    var s := "" + (if false then "+" else "") + ds + "";
    assert s == ds;
    ParsePageOfDigits("", false, ds, "");
    assert ParsePage(Some(s)) == n;
  }

  /** "3abc" gives page 3. */
  lemma ParsePageExample()
    ensures ParsePage(Some("3abc")) == 3
  {
    var ds, rest := "3", "abc";
    assert AllDigits(ds) && !IsDigit(rest[0]);
    assert ds[..0] == "" && DecimalValue(ds) == 3;
    var s := "" + (if false then "+" else "") + ds + rest;
    assert s == "3abc";
    ParsePageOfDigits("", false, ds, rest);
    assert ParsePage(Some(s)) == 3;
  }

  // ---------- formatDate ----------

  /** `formatDate(d)`: the date part of `d.toISOString()`, ten characters. */
  function FormatDate(d: Instant): (r: string)
    ensures |r| == 10
  {
    IsoDate10(d.utc)
  }

  /** For years 0..9999 the formatted date is `YYYY-MM-DD` holding the UTC year, month and day. */
  lemma FormatDateFields(d: Instant)
    requires 0 <= d.utc.year <= 9999
    ensures var r := FormatDate(d);
            r[4] == '-' && r[7] == '-'
            && AllDigits(r[..4]) && AllDigits(r[5..7]) && AllDigits(r[8..])
            && DecimalValue(r[..4]) == d.utc.year
            && DecimalValue(r[5..7]) == d.utc.month
            && DecimalValue(r[8..]) == d.utc.day
  {
    IsoDate10Format(d.utc);
  }
}
