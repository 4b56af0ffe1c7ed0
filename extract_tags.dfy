/**
 * lib/extractTags.ts: the `#tag` scanner used for LeetCode notes.
 *
 * The content is split into lines; a fence line (three backticks and an
 * optional language word) toggles "inside a code block", and lines inside a
 * block are skipped. On every other line the global regular expression
 * `(?<!#)#([A-Za-z0-9_-]+)` is run with `exec` from `lastIndex`, and each
 * captured name is kept unless its lower-case form was seen before.
 */
module ExtractTags {
  import opened Wrappers
  import opened Text

  // ---------- the tag regular expression ----------

  /** `[A-Za-z0-9_-]`. */
  predicate IsTagChar(c: char) {
    IsWordChar(c) || c == '-'
  }

  /** A captured tag name: one or more tag characters. */
  predicate TagToken(t: string) {
    |t| > 0 && forall i :: 0 <= i < |t| ==> IsTagChar(t[i])
  }

  /** End of the greedy `[A-Za-z0-9_-]+` run that starts at j. */
  function RunEnd(line: string, j: nat): (e: nat)
    requires j <= |line|
    ensures j <= e <= |line|
    ensures forall k :: j <= k < e ==> IsTagChar(line[k])
    ensures e == |line| || !IsTagChar(line[e])
    decreases |line| - j
  {
    if j == |line| || !IsTagChar(line[j]) then j else RunEnd(line, j + 1)
  }

  /** The regular expression matches at i: a `#` not preceded by `#`, then a tag character. */
  predicate IsTagStart(line: string, i: int) {
    0 <= i && i + 1 < |line| && line[i] == '#' && IsTagChar(line[i + 1])
    && (i == 0 || line[i - 1] != '#')
  }

  /** t is the name captured by the match that starts at p. */
  predicate TagAt(line: string, p: int, t: string) {
    IsTagStart(line, p) && line[p + 1..RunEnd(line, p + 1)] == t
  }

  /**
   * `TAG_REGEX.exec(line)` with `lastIndex == from`: the leftmost match at or
   * after from, as (start of the `#`, end of the match).
   */
  function FindTag(line: string, from: nat): (m: Option<(nat, nat)>)
    ensures m.Some? ==> from <= m.value.0 && IsTagStart(line, m.value.0)
                        && m.value.1 == RunEnd(line, m.value.0 + 1)
    ensures forall i :: from <= i < (if m.Some? then m.value.0 else |line|) ==> !IsTagStart(line, i)
    decreases |line| - from
  {
    if from >= |line| then None
    else if IsTagStart(line, from) then Some((from, RunEnd(line, from + 1)))
    else FindTag(line, from + 1)
  }

  /** The captured names of the successive matches from `lastIndex == from` on. */
  function Tokens(line: string, from: nat): (r: seq<string>)
    ensures forall k :: 0 <= k < |r| ==> TagToken(r[k])
    decreases |line| - from
  {
    match FindTag(line, from)
    case None => []
    case Some((s, e)) => [line[s + 1..e]] + Tokens(line, e)
  }

  /** t is captured by some match at or after from. */
  predicate CapturedAfter(line: string, from: nat, t: string) {
    exists p :: from <= p < |line| && TagAt(line, p, t)
  }

  /** Every captured name sits in the line right after a `#` that no `#` precedes. */
  lemma TokensSound(line: string, from: nat)
    ensures forall k :: 0 <= k < |Tokens(line, from)| ==> CapturedAfter(line, from, Tokens(line, from)[k])
  {
    forall k | 0 <= k < |Tokens(line, from)|
      ensures CapturedAfter(line, from, Tokens(line, from)[k])
    {
      TokenSound(line, from, k);
    }
  }

  /** The k-th captured name is captured by a match at or after from. */
  lemma {:induction false} TokenSound(line: string, from: nat, k: nat)
    requires k < |Tokens(line, from)|
    ensures CapturedAfter(line, from, Tokens(line, from)[k])
    decreases |line| - from
  {
    var m := FindTag(line, from);
    assert m.Some?;
    var e := m.value.1;
    TokensCons(line, from);
    if k == 0 {
      FirstTokenCaptured(line, from);
    } else {
      TokenSound(line, e, k - 1);
      assert Tokens(line, from)[k] == Tokens(line, e)[k - 1];
      CapturedLater(line, from, e, Tokens(line, e)[k - 1]);
    }
  }

  /** The names from a match on: that match's name, then the names after its end. */
  lemma TokensCons(line: string, from: nat)
    requires FindTag(line, from).Some?
    ensures var m := FindTag(line, from).value;
            Tokens(line, from) == [line[m.0 + 1..m.1]] + Tokens(line, m.1)
  {
  }

  /** The first captured name is that of the first match. */
  lemma FirstTokenCaptured(line: string, from: nat)
    requires FindTag(line, from).Some?
    ensures CapturedAfter(line, from, Tokens(line, from)[0])
  {
    var s := FindTag(line, from).value.0;
    assert TagAt(line, s, Tokens(line, from)[0]);
  }

  /** A name captured after e is captured after any earlier from. */
  lemma CapturedLater(line: string, from: nat, e: nat, t: string)
    requires from <= e && CapturedAfter(line, e, t)
    ensures CapturedAfter(line, from, t)
  {
    var p :| e <= p < |line| && TagAt(line, p, t);
    assert from <= p;
  }

  /** Every match position at or after from contributes its name. */
  lemma {:induction false} TokensComplete(line: string, from: nat, p: nat)
    requires from <= p && IsTagStart(line, p)
    ensures line[p + 1..RunEnd(line, p + 1)] in Tokens(line, from)
    decreases |line| - from
  {
    match FindTag(line, from)
    case None =>
      assert false;
    case Some((s, e)) =>
      if s != p {
        assert s < p;
        assert forall q :: s < q < e ==> line[q] != '#';
        TokensComplete(line, e, p);
      }
  }

  /** A line without `#` yields no names. */
  lemma {:induction false} NoHashNoTokens(line: string, from: nat)
    requires '#' !in line
    ensures Tokens(line, from) == []
  {
    assert forall i :: 0 <= i < |line| ==> !IsTagStart(line, i);
  }

  // ---------- fence lines ----------

  /** End of the greedy `\w*` run that starts at j. */
  function WordRunEnd(s: string, j: nat): (e: nat)
    requires j <= |s|
    ensures j <= e <= |s|
    ensures forall k :: j <= k < e ==> IsWordChar(s[k])
    ensures e == |s| || !IsWordChar(s[e])
    decreases |s| - j
  {
    if j == |s| || !IsWordChar(s[j]) then j else WordRunEnd(s, j + 1)
  }

  /** `/^```[\w]*\s*$/.test(line.trim())`. */
  predicate IsFenceLine(line: string) {
    FenceText(Trim(line))
  }

  /** `/^```[\w]*\s*$/.test(t)`: three backticks, a greedy word run, then white space to the end. */
  predicate FenceText(t: string) {
    |t| >= 3 && t[..3] == "```" && var k := WordRunEnd(t[3..], 0);
    forall i :: k <= i < |t[3..]| ==> IsSpace(t[3..][i])
  }

  /** A fence line is, once trimmed, three backticks followed by word characters only. */
  lemma FenceLineIff(line: string)
    ensures IsFenceLine(line) <==>
            var t := Trim(line);
            |t| >= 3 && t[..3] == "```" && forall i :: 3 <= i < |t| ==> IsWordChar(t[i])
  {
    FenceTextIff(Trim(line));
  }

  /** On trimmed text the trailing `\s*` can match nothing. */
  lemma FenceTextIff(t: string)
    requires IsTrimmed(t)
    ensures FenceText(t) <==> |t| >= 3 && t[..3] == "```" && forall i :: 3 <= i < |t| ==> IsWordChar(t[i])
  {
    if |t| >= 3 && t[..3] == "```" {
      var s := t[3..];
      assert forall i :: 0 <= i < |s| ==> s[i] == t[3 + i];
      assert |s| > 0 ==> !IsSpace(s[|s| - 1]);
    }
  }

  lemma FenceExampleLanguage()
    ensures IsFenceLine("```python")
  {
    TrimOfTrimmed("```python");
    FenceTextIff("```python");
  }

  lemma FenceExampleIndented()
    ensures IsFenceLine("  ```")
  {
    assert IsSpace("  "[0]) && IsSpace("  "[1]);
    TrimStartAfterSpaces("  ", "```");
    assert "  " + "```" == "  ```";
    TrimOfTrimmed("```");
    assert Trim("  ```") == "```";
    FenceTextIff("```");
  }

  lemma FenceExamplePunctuation()
    ensures !IsFenceLine("```c++")
  {
    TrimOfTrimmed("```c++");
    FenceTextIff("```c++");
    assert !IsWordChar("```c++"[4]);
  }

  lemma FenceExampleFourTicks()
    ensures !IsFenceLine("````")
  {
    TrimOfTrimmed("````");
    FenceTextIff("````");
    assert !IsWordChar("````"[3]);
  }

  // ---------- lines ----------

  function StripCR(s: string): string {
    if |s| > 0 && s[|s| - 1] == '\r' then s[..|s| - 1] else s
  }

  /** `content.split(/\r?\n/)`: split at each newline, dropping one carriage return before it. */
  function SplitLines(content: string): (lines: seq<string>)
    ensures |lines| >= 1
    ensures forall i :: 0 <= i < |lines| ==> '\n' !in lines[i]
  {
    var parts := Split(content, '\n');
    seq(|parts|, i requires 0 <= i < |parts| =>
      if i < |parts| - 1 then StripCR(parts[i]) else parts[i])
  }

  /** `inCodeBlock` after the given lines: the parity of the fence lines among them. */
  function InCode(lines: seq<string>): bool {
    if lines == [] then false
    else
      var before := InCode(lines[..|lines| - 1]);
      if IsFenceLine(lines[|lines| - 1]) then !before else before
  }

  /** Line i is scanned for tags: it is no fence line and lies outside a code block. */
  predicate Visible(lines: seq<string>, i: int)
    requires 0 <= i < |lines|
  {
    !IsFenceLine(lines[i]) && !InCode(lines[..i])
  }

  /** The captured names of all scanned lines, in order. */
  function VisibleTokens(lines: seq<string>): (r: seq<string>)
    ensures forall k :: 0 <= k < |r| ==> TagToken(r[k])
  {
    if lines == [] then []
    else
      var init := lines[..|lines| - 1];
      var last := lines[|lines| - 1];
      VisibleTokens(init) + (if !IsFenceLine(last) && !InCode(init) then Tokens(last, 0) else [])
  }

  /** t is captured by a match on a scanned line. */
  predicate CapturedVisibly(lines: seq<string>, t: string) {
    exists i, p :: 0 <= i < |lines| && 0 <= p < |lines[i]| && Visible(lines, i) && TagAt(lines[i], p, t)
  }

  /** Whether a line is scanned depends only on the lines up to it. */
  lemma VisiblePrefix(lines: seq<string>, n: nat, i: nat)
    requires i < n <= |lines|
    ensures Visible(lines[..n], i) == Visible(lines, i)
  {
    assert lines[..n][..i] == lines[..i];
  }

  lemma CapturedVisiblyPrefix(lines: seq<string>, n: nat, t: string)
    requires n <= |lines| && CapturedVisibly(lines[..n], t)
    ensures CapturedVisibly(lines, t)
  {
    var i, p :| 0 <= i < n && 0 <= p < |lines[..n][i]| && Visible(lines[..n], i) && TagAt(lines[..n][i], p, t);
    VisiblePrefix(lines, n, i);
    assert Visible(lines, i) && TagAt(lines[i], p, t);
  }

  lemma {:induction false} VisibleTokenSoundAt(lines: seq<string>, k: nat)
    requires k < |VisibleTokens(lines)|
    ensures CapturedVisibly(lines, VisibleTokens(lines)[k])
  {
    var n := |lines| - 1;
    var init := lines[..n];
    var v := VisibleTokens(init);
    var r := VisibleTokens(lines);
    if k < |v| {
      VisibleTokenSoundAt(init, k);
      assert r[k] == v[k];
      CapturedVisiblyPrefix(lines, n, r[k]);
    } else {
      var t := Tokens(lines[n], 0);
      assert !IsFenceLine(lines[n]) && !InCode(init) && r == v + t;
      TokensSound(lines[n], 0);
      assert r[k] == t[k - |v|] && CapturedAfter(lines[n], 0, t[k - |v|]);
      var p :| 0 <= p < |lines[n]| && TagAt(lines[n], p, t[k - |v|]);
      assert Visible(lines, n);
    }
  }

  lemma VisibleTokensSound(lines: seq<string>)
    ensures forall k :: 0 <= k < |VisibleTokens(lines)| ==> CapturedVisibly(lines, VisibleTokens(lines)[k])
  {
    forall k | 0 <= k < |VisibleTokens(lines)|
      ensures CapturedVisibly(lines, VisibleTokens(lines)[k])
    {
      VisibleTokenSoundAt(lines, k);
    }
  }

  lemma {:induction false} VisibleTokensComplete(lines: seq<string>, i: nat, p: nat)
    requires i < |lines| && Visible(lines, i) && IsTagStart(lines[i], p)
    ensures lines[i][p + 1..RunEnd(lines[i], p + 1)] in VisibleTokens(lines)
  {
    var init := lines[..|lines| - 1];
    if i < |lines| - 1 {
      assert init[..i] == lines[..i] && init[i] == lines[i];
      VisibleTokensComplete(init, i, p);
    } else {
      assert init == lines[..i];
      TokensComplete(lines[i], 0, p);
    }
  }

  // ---------- case-insensitive de-duplication ----------

  /** The `seenLower` set together with the `result` array. */
  datatype Seen = Seen(lower: set<string>, out: seq<string>)

  /** One iteration of the `exec` loop body for the captured name raw. */
  function Step(s: Seen, raw: string): Seen {
    var l := Lower(raw);
    if l in s.lower then s else Seen(s.lower + {l}, s.out + [raw])
  }

  /** The loop body applied to each name in turn. */
  function Collect(s: Seen, toks: seq<string>): Seen
    decreases |toks|
  {
    if toks == [] then s else Collect(Step(s, toks[0]), toks[1..])
  }

  lemma {:induction false} CollectAppend(s: Seen, a: seq<string>, b: seq<string>)
    ensures Collect(s, a + b) == Collect(Collect(s, a), b)
    decreases |a|
  {
    if a == [] {
      assert a + b == b;
    } else {
      assert (a + b)[1..] == a[1..] + b;
      CollectAppend(Step(s, a[0]), a[1..], b);
    }
  }

  /** Some name in toks has lower-case form l. */
  predicate SeenBefore(toks: seq<string>, l: string) {
    exists j :: 0 <= j < |toks| && Lower(toks[j]) == l
  }

  /**
   * r keeps one name per lower-case form of toks: no two kept names share a
   * lower-case form, every kept name comes from toks, and every form of toks
   * is kept.
   */
  ghost predicate OnePerLower(r: seq<string>, toks: seq<string>) {
    && (forall a, b :: 0 <= a < b < |r| ==> Lower(r[a]) != Lower(r[b]))
    && (forall k :: 0 <= k < |r| ==> r[k] in toks)
    && (forall j :: 0 <= j < |toks| ==> SeenBefore(r, Lower(toks[j])))
  }

  /**
   * Reference definition: keep each name whose lower-case form did not occur
   * earlier in the list, in the order of the list.
   */
  function FirstByLower(toks: seq<string>): (r: seq<string>)
    ensures OnePerLower(r, toks)
  {
    if toks == [] then []
    else
      var init := toks[..|toks| - 1];
      var last := toks[|toks| - 1];
      var d := FirstByLower(init);
      assert toks == init + [last];
      OnePerLowerSnoc(d, init, last);
      d + (if SeenBefore(init, Lower(last)) then [] else [last])
  }

  /** Appending a name: it is kept exactly when its lower-case form is new. */
  lemma OnePerLowerSnoc(d: seq<string>, init: seq<string>, last: string)
    requires OnePerLower(d, init)
    ensures OnePerLower(d + (if SeenBefore(init, Lower(last)) then [] else [last]), init + [last])
  {
    var toks := init + [last];
    var r := d + (if SeenBefore(init, Lower(last)) then [] else [last]);
    assert forall k :: 0 <= k < |d| ==> r[k] == d[k];
    assert forall j :: 0 <= j < |init| ==> toks[j] == init[j];
    assert SeenBefore(r, Lower(last)) by {
      if SeenBefore(init, Lower(last)) {
        var j :| 0 <= j < |init| && Lower(init[j]) == Lower(last);
        assert SeenBefore(d, Lower(init[j]));
        var m :| 0 <= m < |d| && Lower(d[m]) == Lower(init[j]);
        assert Lower(r[m]) == Lower(last);
      } else {
        assert Lower(r[|d|]) == Lower(last);
      }
    }
    forall j | 0 <= j < |toks|
      ensures SeenBefore(r, Lower(toks[j]))
    {
      if j < |init| {
        assert SeenBefore(d, Lower(init[j]));
        var m :| 0 <= m < |d| && Lower(d[m]) == Lower(init[j]);
        assert Lower(r[m]) == Lower(toks[j]);
      }
    }
    if !SeenBefore(init, Lower(last)) {
      forall a | 0 <= a < |d|
        ensures Lower(d[a]) != Lower(last)
      {
        var j :| 0 <= j < |init| && init[j] == d[a];
      }
    }
  }

  /** A kept name is the first name of the input with its lower-case form (first casing wins). */
  lemma {:induction false} FirstByLowerFirstCasing(toks: seq<string>, k: nat)
    requires k < |FirstByLower(toks)|
    ensures exists j :: 0 <= j < |toks| && toks[j] == FirstByLower(toks)[k]
                        && !SeenBefore(toks[..j], Lower(toks[j]))
  {
    var init := toks[..|toks| - 1];
    var d := FirstByLower(init);
    if k < |d| {
      FirstByLowerFirstCasing(init, k);
      var j :| 0 <= j < |init| && init[j] == d[k] && !SeenBefore(init[..j], Lower(init[j]));
      assert init[..j] == toks[..j];
    } else {
      assert toks[..|toks| - 1] == init;
    }
  }

  function LowersOf(toks: seq<string>): set<string> {
    set j | 0 <= j < |toks| :: Lower(toks[j])
  }

  lemma LowersOfSnoc(toks: seq<string>, t: string)
    ensures LowersOf(toks + [t]) == LowersOf(toks) + {Lower(t)}
  {
    var all := toks + [t];
    forall l | l in LowersOf(all)
      ensures l in LowersOf(toks) + {Lower(t)}
    {
      var j :| 0 <= j < |all| && Lower(all[j]) == l;
      if j < |toks| {
        assert all[j] == toks[j];
      }
    }
    forall l | l in LowersOf(toks)
      ensures l in LowersOf(all)
    {
      var j :| 0 <= j < |toks| && Lower(toks[j]) == l;
      assert all[j] == toks[j];
    }
    assert Lower(t) == Lower(all[|toks|]);
  }

  lemma LowersOfSeen(toks: seq<string>, l: string)
    ensures l in LowersOf(toks) <==> SeenBefore(toks, l)
  {
  }

  /** The loop run over the kept names is the reference definition, and its set holds their lower-case forms. */
  lemma {:induction false} CollectIsFirstByLower(toks: seq<string>)
    ensures Collect(Seen({}, []), toks) == Seen(LowersOf(toks), FirstByLower(toks))
  {
    if toks != [] {
      var init := toks[..|toks| - 1];
      var last := toks[|toks| - 1];
      assert toks == init + [last];
      CollectIsFirstByLower(init);
      CollectSnoc(Seen({}, []), init, last);
      FirstByLowerSnoc(init, last);
      LowersOfSnoc(init, last);
      LowersOfSeen(init, Lower(last));
    }
  }

  lemma CollectSnoc(s: Seen, init: seq<string>, last: string)
    ensures Collect(s, init + [last]) == Step(Collect(s, init), last)
  {
    CollectAppend(s, init, [last]);
    assert [last][1..] == [];
  }

  lemma FirstByLowerSnoc(init: seq<string>, last: string)
    ensures FirstByLower(init + [last]) == FirstByLower(init) + (if SeenBefore(init, Lower(last)) then [] else [last])
  {
    var toks := init + [last];
    assert toks[..|toks| - 1] == init;
    assert toks[|toks| - 1] == last;
  }

  // ---------- the scanner ----------

  /** The value `extractTags` returns. */
  function ExtractTagsSpec(content: string): seq<string> {
    FirstByLower(VisibleTokens(SplitLines(content)))
  }

  /** One turn of the loop over lines: how `inCodeBlock` and the scanned names advance. */
  lemma ScanStep(lines: seq<string>, i: nat)
    requires i < |lines|
    ensures InCode(lines[..i + 1]) == (if IsFenceLine(lines[i]) then !InCode(lines[..i]) else InCode(lines[..i]))
    ensures VisibleTokens(lines[..i + 1]) == VisibleTokens(lines[..i])
              + (if !IsFenceLine(lines[i]) && !InCode(lines[..i]) then Tokens(lines[i], 0) else [])
  {
    var ls := lines[..i + 1];
    assert ls[..|ls| - 1] == lines[..i] && ls[|ls| - 1] == lines[i];
  }

  /** `extractFromLine(line, seenLower, result)`, returning the updated set and list. */
  method ExtractFromLine(line: string, seenLower: set<string>, result: seq<string>)
    returns (seenOut: set<string>, resultOut: seq<string>)
    ensures Seen(seenOut, resultOut) == Collect(Seen(seenLower, result), Tokens(line, 0))
  {
    seenOut, resultOut := seenLower, result;
    var lastIndex := 0;
    var m := FindTag(line, lastIndex);
    while m.Some?
      invariant lastIndex <= |line|
      invariant m == FindTag(line, lastIndex)
      invariant Collect(Seen(seenOut, resultOut), Tokens(line, lastIndex))
             == Collect(Seen(seenLower, result), Tokens(line, 0))
      decreases |line| - lastIndex
    {
      var raw := line[m.value.0 + 1..m.value.1];
      ghost var before := Seen(seenOut, resultOut);
      CollectTokensStep(before, line, lastIndex);
      var lower := Lower(raw);
      if lower !in seenOut {
        seenOut := seenOut + {lower};
        resultOut := resultOut + [raw];
      }
      assert Seen(seenOut, resultOut) == Step(before, raw);
      lastIndex := m.value.1;
      m := FindTag(line, lastIndex);
    }
    assert Tokens(line, lastIndex) == [];
  }

  /** Collecting from one match on: its name first, then the names after it. */
  lemma CollectTokensStep(s: Seen, line: string, from: nat)
    requires FindTag(line, from).Some?
    ensures var m := FindTag(line, from).value;
            Collect(s, Tokens(line, from)) == Collect(Step(s, line[m.0 + 1..m.1]), Tokens(line, m.1))
  {
    var m := FindTag(line, from).value;
    TokensCons(line, from);
    var toks := Tokens(line, from);
    assert toks[0] == line[m.0 + 1..m.1] && toks[1..] == Tokens(line, m.1);
  }

  /** `extractTags(content)`. */
  method Extract(content: string) returns (result: seq<string>)
    ensures result == ExtractTagsSpec(content)
  {
    result := [];
    var seenLower: set<string> := {};
    var inCodeBlock := false;
    var lines := SplitLines(content);
    for i := 0 to |lines|
      invariant inCodeBlock == InCode(lines[..i])
      invariant Seen(seenLower, result) == Collect(Seen({}, []), VisibleTokens(lines[..i]))
    {
      var line := lines[i];
      ScanStep(lines, i);
      ghost var before := VisibleTokens(lines[..i]);
      if IsFenceLine(line) {
        inCodeBlock := !inCodeBlock;
        assert VisibleTokens(lines[..i + 1]) == before + [] == before;
        continue;
      }
      if !inCodeBlock {
        CollectAppend(Seen({}, []), before, Tokens(line, 0));
        seenLower, result := ExtractFromLine(line, seenLower, result);
      } else {
        assert VisibleTokens(lines[..i + 1]) == before + [] == before;
      }
    }
    assert lines[..|lines|] == lines;
    CollectIsFirstByLower(VisibleTokens(lines));
  }

  // ---------- properties of extractTags ----------

  /** Every extracted tag is a non-empty run of `[A-Za-z0-9_-]`. */
  lemma ExtractedAreTagTokens(content: string)
    ensures forall k :: 0 <= k < |ExtractTagsSpec(content)| ==> TagToken(ExtractTagsSpec(content)[k])
  {
  }

  /** Each extracted tag is captured right after a `#` on a line outside every code block. */
  lemma ExtractedAreVisible(content: string)
    ensures forall k :: 0 <= k < |ExtractTagsSpec(content)| ==>
              CapturedVisibly(SplitLines(content), ExtractTagsSpec(content)[k])
  {
    forall k | 0 <= k < |ExtractTagsSpec(content)|
      ensures CapturedVisibly(SplitLines(content), ExtractTagsSpec(content)[k])
    {
      ExtractedVisibleAt(content, k);
    }
  }

  lemma ExtractedVisibleAt(content: string, k: nat)
    requires k < |ExtractTagsSpec(content)|
    ensures CapturedVisibly(SplitLines(content), ExtractTagsSpec(content)[k])
  {
    var lines := SplitLines(content);
    var toks := VisibleTokens(lines);
    var r := FirstByLower(toks);
    assert OnePerLower(r, toks);
    assert r[k] in toks;
    var j :| 0 <= j < |toks| && toks[j] == r[k];
    VisibleTokenSoundAt(lines, j);
  }

  /** Every tag written on a scanned line is represented, up to case, in the result. */
  lemma ExtractedComplete(content: string, i: nat, p: nat)
    requires var lines := SplitLines(content);
             i < |lines| && Visible(lines, i) && IsTagStart(lines[i], p)
    ensures var line := SplitLines(content)[i];
            SeenBefore(ExtractTagsSpec(content), Lower(line[p + 1..RunEnd(line, p + 1)]))
  {
    var lines := SplitLines(content);
    VisibleTokensComplete(lines, i, p);
  }

  /** No two extracted tags are equal case-insensitively. */
  lemma ExtractedDistinctCI(content: string)
    ensures var r := ExtractTagsSpec(content);
            forall a, b :: 0 <= a < b < |r| ==> Lower(r[a]) != Lower(r[b])
  {
  }

  /** If no scanned line holds a `#`, nothing is extracted. */
  lemma {:induction false} NoHashNoTags(lines: seq<string>)
    requires forall i :: 0 <= i < |lines| && Visible(lines, i) ==> '#' !in lines[i]
    ensures VisibleTokens(lines) == []
  {
    if lines != [] {
      var init := lines[..|lines| - 1];
      forall i | 0 <= i < |init| && Visible(init, i)
        ensures '#' !in init[i]
      {
        assert init[..i] == lines[..i] && init[i] == lines[i];
      }
      NoHashNoTags(init);
      if !IsFenceLine(lines[|lines| - 1]) && !InCode(init) {
        assert init == lines[..|lines| - 1];
        NoHashNoTokens(lines[|lines| - 1], 0);
      }
    }
  }

  /** Content with no `#` outside its fenced blocks has no tags extracted. */
  lemma NoHashNothingExtracted(content: string)
    requires var lines := SplitLines(content);
             forall i :: 0 <= i < |lines| && Visible(lines, i) ==> '#' !in lines[i]
    ensures ExtractTagsSpec(content) == []
  {
    NoHashNoTags(SplitLines(content));
  }

  /** `#` directly after `#` never starts a tag: "##Foo" and "### H" yield nothing. */
  lemma HeadingHashesExamples()
    ensures Tokens("##Foo", 0) == []
    ensures Tokens("### H", 0) == []
  {
    assert !IsTagStart("##Foo", 0) && !IsTagStart("##Foo", 1);
    assert FindTag("##Foo", 0) == None;
    assert !IsTagStart("### H", 0) && !IsTagStart("### H", 1) && !IsTagStart("### H", 2);
    assert FindTag("### H", 0) == None;
  }

  /** Of "HashMap" and "hashmap", only the first spelling survives. */
  lemma FirstCasingExample()
    ensures FirstByLower(["HashMap", "hashmap"]) == ["HashMap"]
  {
    var toks := ["HashMap", "hashmap"];
    assert Lower("HashMap") == "hashmap";
    assert Lower("hashmap") == "hashmap";
    assert toks[..1] == ["HashMap"] && toks[..1][..0] == [];
    assert FirstByLower(toks[..1]) == ["HashMap"];
    assert SeenBefore(toks[..1], Lower(toks[1]));
  }
}
