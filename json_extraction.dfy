/**
 * Choosing the part of an LLM reply that is handed to the JSON parser
 * (app/api/generate-script/route.ts). Three strategies in priority order: the block after a
 * "```json" fence; otherwise the block after any "```" fence, minus a leading `json` tag;
 * otherwise a brace-counting scan from the first `{`. The scan counts every `{` and `}`,
 * including those inside JSON string literals.
 */
module JsonExtraction {
  import opened Wrappers
  import opened JsStrings

  const JsonFence: string := "```json"
  const Fence: string := "```"
  const JsonTag: string := "json"

  lemma {:induction false} JsonFenceIsFence(text: string, p: nat)
    requires OccursAt(text, JsonFence, p)
    ensures OccursAt(text, Fence, p)
  {
    assert text[p..p + 3] == text[p..p + 7][..3];
  }

  /**
   * The two fence strategies. `Some` exactly when the text contains "```".
   */
  function FenceSpan(text: string): (r: Option<string>)
    ensures r.Some? <==> Contains(text, Fence)
  {
    if Contains(text, JsonFence) && Contains(text, Fence) then
      Some(Trim(SplitFirst(SplitSecond(text, JsonFence), Fence)))
    else if Contains(text, Fence) && Contains(text, Fence) then
      var code := Trim(SplitFirst(SplitSecond(text, Fence), Fence));
      if StartsWith(code, JsonTag) then Some(Trim(code[|JsonTag|..])) else Some(code)
    else
      assert Contains(text, JsonFence) ==> Contains(text, Fence) by {
        if Contains(text, JsonFence) {
          var p :| 0 <= p <= |text| && OccursAt(text, JsonFence, p);
          JsonFenceIsFence(text, p);
        }
      }
      None
  }

  /** `text.indexOf("{")`. */
  function FirstOpenBrace(text: string): (r: int)
    ensures r == -1 <==> forall k :: 0 <= k < |text| ==> text[k] != '{'
    ensures r != -1 ==> 0 <= r < |text| && text[r] == '{' && forall k :: 0 <= k < r ==> text[k] != '{'
  {
    var r := IndexOf(text, "{");
    assert forall k :: 0 <= k < |text| ==> (OccursAt(text, "{", k) <==> text[k] == '{') by {
      forall k | 0 <= k < |text| ensures OccursAt(text, "{", k) <==> text[k] == '{' {
        assert text[k..k + 1] == [text[k]];
      }
    }
    r
  }

  /** How one character moves the running brace count. */
  function Delta(c: char): int
  {
    if c == '{' then 1 else if c == '}' then -1 else 0
  }

  /** Number of `{` minus number of `}` in `s`. */
  function Balance(s: string): int
  {
    if s == [] then 0 else Balance(s[..|s| - 1]) + Delta(s[|s| - 1])
  }

  lemma {:induction false} BalanceExtend(text: string, start: nat, i: nat)
    requires start <= i < |text|
    ensures Balance(text[start..i + 1]) == Balance(text[start..i]) + Delta(text[i])
  {
    assert text[start..i + 1][..i - start] == text[start..i];
  }

  /**
   * `j` is where the brace scan from `start` stops: `text[j]` is a `}` at which the count of the
   * span `text[start..j + 1]` is back to 0 for the first time.
   */
  predicate ClosesAt(text: string, start: nat, j: nat)
  {
    && start <= j < |text|
    && text[j] == '}'
    && Balance(text[start..j + 1]) == 0
    && forall n :: start < n <= j ==> Balance(text[start..n]) > 0
  }

  lemma {:induction false} ClosesAtUnique(text: string, start: nat, j1: nat, j2: nat)
    requires ClosesAt(text, start, j1) && ClosesAt(text, start, j2)
    ensures j1 == j2
  {
  }

  /** What the brace strategy selects: the balanced span when there is one, else the whole text. */
  ghost function BraceSpan(text: string): string
  {
    var s := FirstOpenBrace(text);
    if s == -1 then text
    else if exists j: nat :: ClosesAt(text, s, j) then
      var j: nat :| ClosesAt(text, s, j);
      text[s..j + 1]
    else text
  }

  /** The span that is handed to the parser. */
  ghost function SelectSpan(text: string): string
  {
    match FenceSpan(text)
    case Some(span) => span
    case None => BraceSpan(text)
  }

  /** The brace-counting loop of route.ts lines 95-111. */
  method ScanBraces(text: string) returns (jsonContent: string)
    ensures jsonContent == BraceSpan(text)
  {
    jsonContent := text;
    var startIdx := FirstOpenBrace(text);
    if startIdx != -1 {
      var braceCount := 0;
      var i := startIdx;
      while i < |text|
        invariant startIdx <= i <= |text|
        invariant braceCount == Balance(text[startIdx..i])
        invariant forall n :: startIdx < n <= i ==> Balance(text[startIdx..n]) > 0
      {
        BalanceExtend(text, startIdx, i);
        if text[i] == '{' {
          braceCount := braceCount + 1;
        } else if text[i] == '}' {
          braceCount := braceCount - 1;
          if braceCount == 0 {
            jsonContent := text[startIdx..i + 1];
            ClosingBraceFound(text, i);
            return;
          }
        }
        i := i + 1;
      }
      NoClosingBrace(text);
    }
  }

  /** The scan meets the brace that closes the first `{` at `i`. */
  lemma {:induction false} ClosingBraceFound(text: string, i: nat)
    requires FirstOpenBrace(text) != -1 && ClosesAt(text, FirstOpenBrace(text), i)
    ensures BraceSpan(text) == text[FirstOpenBrace(text)..i + 1]
  {
    var s := FirstOpenBrace(text);
    var j: nat :| ClosesAt(text, s, j);
    ClosesAtUnique(text, s, i, j);
  }

  /** The scan runs off the end with the count still positive. */
  lemma {:induction false} NoClosingBrace(text: string)
    requires FirstOpenBrace(text) != -1
    requires forall n :: FirstOpenBrace(text) < n <= |text| ==> Balance(text[FirstOpenBrace(text)..n]) > 0
    ensures BraceSpan(text) == text
  {
    var s := FirstOpenBrace(text);
    assert forall j: nat :: !ClosesAt(text, s, j);
  }

  /** The span selection of route.ts lines 81-112, which reassigns `jsonContent` branch by branch. */
  method ExtractJsonContent(text: string) returns (jsonContent: string)
    ensures jsonContent == SelectSpan(text)
  {
    jsonContent := text;
    var fenced := FenceSpan(text);
    if fenced.Some? {
      jsonContent := fenced.value;
    } else {
      jsonContent := ScanBraces(text);
    }
  }

  /**
   * A "```json" fence wins: the span is the trimmed text from the end of the first "```json"
   * up to the next "```" (`q`), or to the end of the text when there is none. The split on
   * "```json" comes first, so the only texts this does not cover are those where another
   * "```json" starts one or two characters after that "```" (runs of four or five backticks).
   */
  lemma {:induction false} JsonFenceSelected(text: string, p: nat, q: nat)
    requires OccursAt(text, JsonFence, p) && forall k :: 0 <= k < p ==> !OccursAt(text, JsonFence, k)
    requires p + |JsonFence| <= q <= |text|
    requires q == |text| || OccursAt(text, Fence, q)
    requires forall k :: p + |JsonFence| <= k < q ==> !OccursAt(text, Fence, k)
    requires !OccursAt(text, JsonFence, q + 1) && !OccursAt(text, JsonFence, q + 2)
    ensures SelectSpan(text) == Trim(text[p + |JsonFence|..q])
  {
    IndexOfIsFirst(text, JsonFence, p);
    JsonFenceIsFence(text, p);
    assert Contains(text, JsonFence) && Contains(text, Fence);
    JsonBlockEnds(text, p, q);
  }

  lemma {:induction false} JsonBlockEnds(text: string, p: nat, q: nat)
    requires OccursAt(text, JsonFence, p) && IndexOf(text, JsonFence) == p
    requires p + |JsonFence| <= q <= |text|
    requires q == |text| || OccursAt(text, Fence, q)
    requires forall k :: p + |JsonFence| <= k < q ==> !OccursAt(text, Fence, k)
    requires !OccursAt(text, JsonFence, q + 1) && !OccursAt(text, JsonFence, q + 2)
    ensures Contains(text, JsonFence)
    ensures SplitFirst(SplitSecond(text, JsonFence), Fence) == text[p + |JsonFence|..q]
  {
    var m := SplitSecond(text, JsonFence);
    BlockFirstFence(text, p + |JsonFence|, p + |JsonFence| + |m|, q, m);
  }

  /** The block `m == text[b..e]` ends at its first "```", which is the text's next fence `q`. */
  lemma {:induction false} BlockFirstFence(text: string, b: nat, e: nat, q: nat, m: string)
    requires b <= e <= |text| && b <= q <= |text| && m == text[b..e]
    requires e == |text| || OccursAt(text, JsonFence, e)
    requires q == |text| || OccursAt(text, Fence, q)
    requires forall k :: b <= k < q ==> !OccursAt(text, Fence, k)
    requires !OccursAt(text, JsonFence, q + 1) && !OccursAt(text, JsonFence, q + 2)
    ensures SplitFirst(m, Fence) == text[b..q]
  {
    var f := SplitFirst(m, Fence);
    FirstFenceInBlock(text, b, e, q, |f|);
    PrefixOfSlice(text, b, e, |f|);
  }

  /** The first "```" inside the "```json" block `text[b..e]` sits at text position `q`. */
  lemma {:induction false} FirstFenceInBlock(text: string, b: nat, e: nat, q: nat, f: nat)
    requires b <= e <= |text| && b <= q <= |text| && f <= e - b
    requires e == |text| || OccursAt(text, JsonFence, e)
    requires q == |text| || OccursAt(text, Fence, q)
    requires forall k :: b <= k < q ==> !OccursAt(text, Fence, k)
    requires !OccursAt(text, JsonFence, q + 1) && !OccursAt(text, JsonFence, q + 2)
    requires f == e - b || OccursAt(text[b..e], Fence, f)
    requires forall k :: 0 <= k < f ==> !OccursAt(text[b..e], Fence, k)
    ensures b + f == q
  {
    if b + f > q {
      assert q < |text| && OccursAt(text, Fence, q);
      if q + |Fence| <= e {
        OccursInSlice(text, b, e, Fence, q - b);
      }
    }
    if b + f < q {
      if f < e - b {
        OccursInSlice(text, b, e, Fence, f);
        assert false;
      } else {
        assert e < |text| && OccursAt(text, JsonFence, e);
        JsonFenceIsFence(text, e);
        assert false;
      }
    }
  }

  /**
   * Without "```json", a bare "```" fence is used: the trimmed text between the first fence (at
   * `p`) and the next one (`q`, or the end); if that starts with `json`, those four characters
   * are dropped and the rest is trimmed again.
   */
  lemma {:induction false} PlainFenceSelected(text: string, p: nat, q: nat)
    requires !Contains(text, JsonFence)
    requires OccursAt(text, Fence, p) && forall k :: 0 <= k < p ==> !OccursAt(text, Fence, k)
    requires p + |Fence| <= q <= |text|
    requires q == |text| || OccursAt(text, Fence, q)
    requires forall k :: p + |Fence| <= k < q ==> !OccursAt(text, Fence, k)
    ensures var code := Trim(text[p + |Fence|..q]);
      SelectSpan(text) == if StartsWith(code, JsonTag) then Trim(code[|JsonTag|..]) else code
  {
    IndexOfIsFirst(text, Fence, p);
    assert Contains(text, Fence);
    var b := p + |Fence|;
    var m := SplitSecond(text, Fence);
    assert SplitFirst(m, Fence) == m == text[b..q];
  }

  /** Without a fence, a text with no `{` is handed to the parser unchanged. */
  lemma {:induction false} NoFenceNoBraceWholeText(text: string)
    requires !Contains(text, Fence)
    requires forall k :: 0 <= k < |text| ==> text[k] != '{'
    ensures SelectSpan(text) == text
  {
  }

  /**
   * Without a fence, when the count from the first `{` (at `s`) returns to 0 at `j`, the span
   * is the slice `text[s..j + 1]`: it starts with `{`, ends with `}`, holds as many `{` as `}`,
   * and every non-empty proper prefix of it holds more `{` than `}`.
   */
  lemma {:induction false} BalancedBraceSelected(text: string, s: nat, j: nat)
    requires !Contains(text, Fence)
    requires s < |text| && text[s] == '{' && forall k :: 0 <= k < s ==> text[k] != '{'
    requires ClosesAt(text, s, j)
    ensures var span := SelectSpan(text);
      && span == text[s..j + 1]
      && span[0] == '{' && span[|span| - 1] == '}'
      && Balance(span) == 0
      && forall n :: 0 < n < |span| ==> Balance(span[..n]) > 0
  {
    BraceSpanAt(text, s, j);
    var span := text[s..j + 1];
    forall n | 0 < n < |span| ensures Balance(span[..n]) > 0 {
      assert span[..n] == text[s..s + n];
    }
  }

  lemma {:induction false} BraceSpanAt(text: string, s: nat, j: nat)
    requires s < |text| && text[s] == '{' && forall k :: 0 <= k < s ==> text[k] != '{'
    requires ClosesAt(text, s, j)
    ensures BraceSpan(text) == text[s..j + 1]
  {
    assert FirstOpenBrace(text) == s;
    var t: nat :| ClosesAt(text, s, t);
    ClosesAtUnique(text, s, j, t);
  }

  /** Without a fence, when the count never returns to 0, the whole text is handed over unchanged. */
  lemma {:induction false} UnbalancedWholeText(text: string, s: nat)
    requires !Contains(text, Fence)
    requires s < |text| && text[s] == '{' && forall k :: 0 <= k < s ==> text[k] != '{'
    requires forall j: nat :: !ClosesAt(text, s, j)
    ensures SelectSpan(text) == text
  {
  }

  /** `s` has no backtick, so no fence can start, end or overlap inside it. */
  predicate NoBacktick(s: string)
  {
    forall k :: 0 <= k < |s| ==> s[k] != '`'
  }

  /** `obj` is a brace-balanced object text: the count first returns to 0 at its last character. */
  predicate BalancedObject(obj: string)
  {
    && |obj| > 0 && obj[0] == '{' && obj[|obj| - 1] == '}'
    && Balance(obj) == 0
    && forall n :: 0 < n < |obj| ==> Balance(obj[..n]) > 0
  }

  /** A pattern cannot occur at `k` when the text disagrees with it at offset `i`. */
  lemma {:induction false} MismatchAt(text: string, pat: string, k: nat, i: nat)
    requires i < |pat| && k + i < |text| && text[k + i] != pat[i]
    ensures !OccursAt(text, pat, k)
  {
    if k + |pat| <= |text| {
      assert text[k..k + |pat|][i] == text[k + i];
    }
  }

  lemma {:induction false} NoBacktickNoFence(s: string)
    requires NoBacktick(s)
    ensures !Contains(s, Fence)
  {
    forall k | 0 <= k < |s| ensures !OccursAt(s, Fence, k) {
      MismatchAt(s, Fence, k, 0);
    }
  }

  /**
   * Wrapping a payload in a "```json" fence and extracting it gives the payload back: for prose
   * `pre` without backticks, a payload `x` without backticks or surrounding white space, and any
   * trailer `post` that does not start with a backtick.
   */
  lemma {:induction false} ExtractFencedPayload(pre: string, x: string, post: string)
    requires NoBacktick(pre) && NoBacktick(x)
    requires x == [] || (!IsWhiteSpace(x[0]) && !IsWhiteSpace(x[|x| - 1]))
    requires post == [] || post[0] != '`'
    ensures SelectSpan(pre + JsonFence + x + Fence + post) == x
  {
    FencedShape(pre, x, post);
    FencedSelects(pre + JsonFence + x + Fence + post, |pre|, |pre| + |JsonFence| + |x|, x);
  }

  lemma {:induction false} FencedSelects(text: string, p: nat, q: nat, x: string)
    requires OccursAt(text, JsonFence, p) && forall k :: 0 <= k < p ==> !OccursAt(text, JsonFence, k)
    requires p + |JsonFence| <= q <= |text| && OccursAt(text, Fence, q)
    requires forall k :: p + |JsonFence| <= k < q ==> !OccursAt(text, Fence, k)
    requires !OccursAt(text, JsonFence, q + 1) && !OccursAt(text, JsonFence, q + 2)
    requires text[p + |JsonFence|..q] == x
    requires x == [] || (!IsWhiteSpace(x[0]) && !IsWhiteSpace(x[|x| - 1]))
    ensures SelectSpan(text) == x
  {
    JsonFenceSelected(text, p, q);
    TrimOfTrimmed(x);
  }

  /** Where the fences of `pre + "```json" + x + "```" + post` are, and where they are not. */
  lemma {:induction false} FencedShape(pre: string, x: string, post: string)
    requires NoBacktick(pre) && NoBacktick(x)
    requires post == [] || post[0] != '`'
    ensures var text := pre + JsonFence + x + Fence + post;
      var p := |pre|; var q := p + |JsonFence| + |x|;
      && OccursAt(text, JsonFence, p) && (forall k :: 0 <= k < p ==> !OccursAt(text, JsonFence, k))
      && p + |JsonFence| <= q <= |text| && OccursAt(text, Fence, q)
      && (forall k :: p + |JsonFence| <= k < q ==> !OccursAt(text, Fence, k))
      && !OccursAt(text, JsonFence, q + 1) && !OccursAt(text, JsonFence, q + 2)
      && text[p + |JsonFence|..q] == x
  {
    var text := pre + JsonFence + x + Fence + post;
    var p := |pre|;
    var q := p + |JsonFence| + |x|;
    FencedLayout(pre, x, post);
    forall k | 0 <= k < p ensures !OccursAt(text, JsonFence, k) {
      MismatchAt(text, JsonFence, k, 0);
    }
    forall k | p + |JsonFence| <= k < q ensures !OccursAt(text, Fence, k) {
      assert text[k] == x[k - p - |JsonFence|];
      MismatchAt(text, Fence, k, 0);
    }
    if post != [] {
      MismatchAt(text, JsonFence, q + 1, 2);
      MismatchAt(text, JsonFence, q + 2, 1);
    }
  }

  /** The pieces of `pre + "```json" + x + "```" + post`, position by position. */
  lemma {:induction false} FencedLayout(pre: string, x: string, post: string)
    ensures var text := pre + JsonFence + x + Fence + post;
      var p := |pre|; var q := p + |JsonFence| + |x|;
      && |text| == q + |Fence| + |post|
      && (forall k :: 0 <= k < p ==> text[k] == pre[k])
      && text[p..p + |JsonFence|] == JsonFence
      && (forall k :: 0 <= k < |x| ==> text[p + |JsonFence| + k] == x[k])
      && text[p + |JsonFence|..q] == x
      && text[q..q + |Fence|] == Fence
      && (post != [] ==> text[q + |Fence|] == post[0])
  {
    var text := pre + JsonFence + x + Fence + post;
    var p := |pre|;
    var q := p + |JsonFence| + |x|;
    assert text == pre + (JsonFence + (x + (Fence + post)));
    assert text[p..] == JsonFence + (x + (Fence + post));
    assert text[p + |JsonFence|..] == x + (Fence + post);
    assert text[q..] == Fence + post;
    assert text[p..p + |JsonFence|] == text[p..][..|JsonFence|];
    assert text[p + |JsonFence|..q] == text[p + |JsonFence|..][..|x|];
    assert text[q..q + |Fence|] == text[q..][..|Fence|];
  }

  /**
   * A balanced object embedded in prose without backticks is extracted exactly, provided the prose
   * before it has no `{`.
   */
  lemma {:induction false} ExtractBareObject(pre: string, obj: string, post: string)
    requires NoBacktick(pre) && NoBacktick(obj) && NoBacktick(post)
    requires forall k :: 0 <= k < |pre| ==> pre[k] != '{'
    requires BalancedObject(obj)
    ensures SelectSpan(pre + obj + post) == obj
  {
    var text := pre + obj + post;
    var s := |pre|;
    var j := s + |obj| - 1;
    assert NoBacktick(text);
    NoBacktickNoFence(text);
    assert text[s..j + 1] == obj;
    forall n | s < n <= j ensures Balance(text[s..n]) > 0 {
      assert text[s..n] == obj[..n - s];
    }
    assert ClosesAt(text, s, j);
    BalancedBraceSelected(text, s, j);
  }
}
