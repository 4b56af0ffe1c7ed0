/**
 * lib/leetcode-content.ts: the plain-text summary of a TipTap/ProseMirror
 * document. The document is a JSON value; the walk collects the `text` of
 * text nodes in document order and skips every `codeBlock` subtree.
 */
module LeetCodeContent {
  import opened Text

  /** A JSON value (numbers are integers here; see README). */
  datatype Json =
    | JNull
    | JBool(b: bool)
    | JNum(n: int)
    | JStr(s: string)
    | JArr(items: seq<Json>)
    | JObj(fields: map<string, Json>)

  /** `n.type === t` on an object node. */
  predicate HasType(f: map<string, Json>, t: string) {
    "type" in f && f["type"] == JStr(t)
  }

  /** A node that contributes its own string: `type === 'text'` and a string `text`. */
  predicate IsTextNode(f: map<string, Json>) {
    HasType(f, "text") && "text" in f && f["text"].JStr?
  }

  /**
   * The strings `walkCollectText` pushes for a node: the `text` of a text
   * node; nothing for a code block, a non-object or an object whose `content`
   * is not an array; otherwise those of the children, in order.
   */
  function Texts(node: Json): seq<string>
    decreases node
  {
    match node
    case JObj(f) =>
      if IsTextNode(f) then [f["text"].s]
      else if HasType(f, "codeBlock") then []
      else if "content" in f && f["content"].JArr? then
        var items := f["content"].items;
        Concat(seq(|items|, i requires 0 <= i < |items| => Texts(items[i])))
      else []
    case _ => []
  }

  /** `walkCollectText(node, parts)`, returning the extended `parts`. */
  method WalkCollectText(node: Json, parts: seq<string>) returns (out: seq<string>)
    ensures out == parts + Texts(node)
    decreases node
  {
    out := parts;
    if !node.JObj? {
      return;
    }
    var n := node.fields;
    if IsTextNode(n) {
      out := out + [n["text"].s];
      return;
    }
    if HasType(n, "codeBlock") {
      return;
    }
    if "content" in n && n["content"].JArr? {
      var content := n["content"].items;
      ghost var childTexts := seq(|content|, i requires 0 <= i < |content| => Texts(content[i]));
      for i := 0 to |content|
        invariant out == parts + Concat(childTexts[..i])
      {
        assert childTexts[..i + 1][..i] == childTexts[..i];
        out := WalkCollectText(content[i], out);
      }
      assert childTexts[..|content|] == childTexts;
    }
  }

  /** The concatenation of a list of lists, built from the back as `push` builds it. */
  function Concat(xss: seq<seq<string>>): seq<string> {
    if xss == [] then [] else Concat(xss[..|xss| - 1]) + xss[|xss| - 1]
  }

  /** Everything collected under a code block is dropped, whatever its children. */
  lemma CodeBlockContributesNothing(f: map<string, Json>)
    requires HasType(f, "codeBlock")
    ensures Texts(JObj(f)) == []
  {
  }

  /** Non-objects and objects without an array `content` (and not text nodes) contribute nothing. */
  lemma NonContainerContributesNothing(node: Json)
    requires !node.JObj? || (!IsTextNode(node.fields) && !("content" in node.fields && node.fields["content"].JArr?))
    ensures Texts(node) == []
  {
  }

  /** Every collected string is the `text` of a text node somewhere in the tree, outside code blocks. */
  predicate TextOccurs(node: Json, t: string)
    decreases node
  {
    match node
    case JObj(f) =>
      (IsTextNode(f) && f["text"].s == t)
      || (!IsTextNode(f) && !HasType(f, "codeBlock") && "content" in f && f["content"].JArr?
          && exists i :: 0 <= i < |f["content"].items| && TextOccurs(f["content"].items[i], t))
    case _ => false
  }

  lemma {:induction false} TextsSound(node: Json, k: nat)
    requires k < |Texts(node)|
    ensures TextOccurs(node, Texts(node)[k])
    decreases node
  {
    var f := node.fields;
    if !IsTextNode(f) {
      var items := f["content"].items;
      var xss := seq(|items|, i requires 0 <= i < |items| => Texts(items[i]));
      var i, j := ConcatLocate(xss, k);
      TextsSound(items[i], j);
      assert Texts(node)[k] == Texts(items[i])[j];
    }
  }

  /** Conversely every text node outside code blocks is collected. */
  lemma {:induction false} TextsComplete(node: Json, t: string)
    requires TextOccurs(node, t)
    ensures t in Texts(node)
    decreases node
  {
    var f := node.fields;
    if !IsTextNode(f) {
      var items := f["content"].items;
      var xss := seq(|items|, i requires 0 <= i < |items| => Texts(items[i]));
      var i :| 0 <= i < |items| && TextOccurs(items[i], t);
      TextsComplete(items[i], t);
      ConcatContains(xss, i, t);
    }
  }

  lemma {:induction false} ConcatContains(xss: seq<seq<string>>, i: nat, t: string)
    requires i < |xss| && t in xss[i]
    ensures t in Concat(xss)
  {
    if i < |xss| - 1 {
      ConcatContains(xss[..|xss| - 1], i, t);
    }
  }

  /** Position k of a concatenation lies at position j of part i. */
  lemma {:induction false} ConcatLocate(xss: seq<seq<string>>, k: nat) returns (i: nat, j: nat)
    requires k < |Concat(xss)|
    ensures i < |xss| && j < |xss[i]| && Concat(xss)[k] == xss[i][j]
  {
    var init := xss[..|xss| - 1];
    if k < |Concat(init)| {
      i, j := ConcatLocate(init, k);
    } else {
      i, j := |xss| - 1, k - |Concat(init)|;
    }
  }

  // ---------- extractPlainTextSummary ----------

  const DEFAULT_MAX_LENGTH: nat := 160

  /** The ellipsis appended to a cut summary (U+2026). */
  const ELLIPSIS: char := '…'

  /** `parts.join(' ').replace(/\s+/g, ' ').trim()`. */
  function RawText(parts: seq<string>): (r: string)
    ensures IsTrimmed(r) && NoSpaceRun(r)
    ensures forall i :: 0 <= i < |r| ==> IsSpace(r[i]) ==> r[i] == ' '
  {
    var collapsed := ReplaceRuns(JoinWith(parts, " "), IsSpace, ' ');
    TrimIsSlice(collapsed);
    Trim(collapsed)
  }

  /** `extractPlainTextSummary(doc, maxLength)`. */
  function Summary(doc: Json, maxLength: nat): (r: string)
  {
    var raw := RawText(Texts(doc));
    if |raw| <= maxLength then raw
    else Trim(raw[..maxLength]) + [ELLIPSIS]
  }

  /** A summary that fits is the collapsed text itself; otherwise a trimmed cut plus the ellipsis. */
  lemma SummaryShape(doc: Json, maxLength: nat)
    ensures var raw := RawText(Texts(doc));
            var r := Summary(doc, maxLength);
            (|raw| <= maxLength ==> r == raw)
            && (|raw| > maxLength ==>
                  |r| <= maxLength + 1 && r[|r| - 1] == ELLIPSIS
                  && IsTrimmed(r[..|r| - 1]) && NoSpaceRun(r[..|r| - 1]))
  {
    var raw := RawText(Texts(doc));
    if |raw| > maxLength {
      var cut := raw[..maxLength];
      TrimIsSlice(cut);
      var r := Summary(doc, maxLength);
      assert r[..|r| - 1] == Trim(cut);
    }
  }

  /** The length bound of every summary. */
  lemma SummaryLength(doc: Json, maxLength: nat)
    ensures |Summary(doc, maxLength)| <= maxLength + 1
  {
    SummaryShape(doc, maxLength);
  }

  /** `parts.join(sep)` for an arbitrary separator string. */
  function JoinWith(parts: seq<string>, sep: string): string {
    if |parts| == 0 then ""
    else if |parts| == 1 then parts[0]
    else parts[0] + sep + JoinWith(parts[1..], sep)
  }
}
