/**
 * The render-time split of an assistant message into an optional thinking
 * block, delimited by `<think>` and `</think>`, and the final answer.
 */
module ThinkingSplitter {
  import opened Wrappers
  import opened Text

  const Open: string := "<think>"
  const Close: string := "</think>"

  /** How a message body is shown: as it is, or as a thinking block and a final answer. */
  datatype Rendered = Plain(content: string) | Thinking(thinking: string, final: string)

  /** `pat` occurs at `e` and nowhere before it. */
  ghost predicate FirstAt(s: string, pat: string, e: nat)
  {
    MatchAt(s, pat, e) && forall j :: 0 <= j < e ==> !MatchAt(s, pat, j)
  }

  /** `pat` occurs at `q` and nowhere in `from`..`q - 1`. */
  ghost predicate NextAt(s: string, pat: string, from: nat, q: nat)
  {
    from <= q && MatchAt(s, pat, q) && forall j :: from <= j < q ==> !MatchAt(s, pat, j)
  }

  /** What `thinkingMatch[1].trim()` yields when the lazy match of
    * `/<think>([\s\S]*?)<\/think>/` starts its group at `from`, or "" without a match. */
  ghost predicate ThinkingPart(s: string, from: nat, thinking: string)
    requires from <= |s|
  {
    (exists q: nat :: NextAt(s, Close, from, q) && thinking == Trim(s[from..q])) ||
    ((forall j: nat :: from <= j ==> !MatchAt(s, Close, j)) && thinking == "")
  }

  /** The trimmed group of the lazy match whose group starts at `from`, or "" without a match. */
  function ThinkingFrom(content: string, from: nat): (thinking: string)
    requires from <= |content|
    ensures ThinkingPart(content, from, thinking)
  {
    match IndexFrom(content, Close, from)
    case Some(q) => Trim(content[from..q])
    case None => ""
  }

  /** `indexOf` of a contained pattern is its first occurrence. */
  lemma FirstOccurrence(content: string, pat: string)
    requires Contains(content, pat)
    ensures FirstAt(content, pat, IndexOf(content, pat).value)
  {
  }

  /** `MessageContent`'s split of `content`. */
  function Split(content: string): (r: Rendered)
    ensures r.Plain? <==> !(Contains(content, Open) && Contains(content, Close))
    ensures r.Plain? ==> r.content == content
  {
    if !(content != "" && Contains(content, Open) && Contains(content, Close)) then Plain(content)
    else
      var p := IndexOf(content, Open).value;
      var e := IndexOf(content, Close).value;
      Thinking(ThinkingFrom(content, p + |Open|), Trim(content[e + |Close|..]))
  }

  /** When both markers occur, the answer is the trimmed text after the first `</think>`, and the
    * thinking is the trimmed group of the lazy match starting after the first `<think>`. */
  lemma SplitThinking(content: string)
    requires Split(content).Thinking?
    ensures exists e: nat :: FirstAt(content, Close, e) && Split(content).final == Trim(content[e + |Close|..])
    ensures exists p: nat :: FirstAt(content, Open, p) && ThinkingPart(content, p + |Open|, Split(content).thinking)
  {
    FirstOccurrence(content, Open);
    FirstOccurrence(content, Close);
  }

  /** In `<think>` + mid + `</think>` + post, the only place `</think>` can start before post is its own marker. */
  lemma NoCloseBefore(mid: string, post: string, j: nat)
    requires !Contains(mid, Close)
    requires j < |Open| + |mid|
    ensures !MatchAt(Open + mid + Close + post, Close, j)
  {
    var c := Open + mid + Close + post;
    var l := |Open| + |mid|;
    if j + |Close| <= |c| {
      if j == 0 {
        assert c[1] == 't' != Close[1];
        assert c[j..j + |Close|][1] != Close[1];
      } else if j < |Open| {
        assert c[j] == Open[j] != Close[0];
        assert c[j..j + |Close|][0] != Close[0];
      } else if j + |Close| <= l {
        assert mid[j - |Open|..j - |Open| + |Close|] == c[j..j + |Close|];
        assert !MatchAt(mid, Close, j - |Open|);
      } else {
        assert c[l] == '<' != Close[l - j];
        assert c[j..j + |Close|][l - j] != Close[l - j];
      }
    }
  }

  /** In `<think>` + mid + `</think>` + post, `indexOf` finds the opening marker at 0 and
    * the closing one right after mid, whether it searches from 0 or from the end of `<think>`. */
  lemma BlockMarkers(mid: string, post: string)
    requires !Contains(mid, Close)
    ensures var c, l := Open + mid + Close + post, |Open| + |mid|;
      IndexOf(c, Open) == Some(0) && IndexOf(c, Close) == Some(l) && IndexFrom(c, Close, |Open|) == Some(l)
  {
    var c := Open + mid + Close + post;
    var l := |Open| + |mid|;
    assert c[..|Open|] == Open;
    IndexFromFinds(c, Open, 0, 0);
    assert c[l..l + |Close|] == Close;
    forall j | 0 <= j < l
      ensures !MatchAt(c, Close, j)
    {
      NoCloseBefore(mid, post, j);
    }
    IndexFromFinds(c, Close, 0, l);
    IndexFromFinds(c, Close, |Open|, l);
  }

  /** Where `indexOf` finds `<think>` at 0 and `</think>` at `l`, both from 0 and from the end of
    * `<think>`, the split is the trimmed text between the markers and the trimmed rest. */
  lemma SplitAt(c: string, l: nat)
    requires IndexOf(c, Open) == Some(0) && IndexOf(c, Close) == Some(l)
    requires IndexFrom(c, Close, |Open|) == Some(l)
    ensures |Open| <= l && l + |Close| <= |c|
    ensures Split(c) == Thinking(Trim(c[|Open|..l]), Trim(c[l + |Close|..]))
  {
    assert c != "" && Contains(c, Open) && Contains(c, Close);
    assert IndexOf(c, Open).value + |Open| == |Open| && IndexOf(c, Close).value == l;
    ThinkingAt(c, |Open|, l);
  }

  /** Where the next `</think>` from `from` is at `l`, the thinking part is the trimmed text between. */
  lemma ThinkingAt(c: string, from: nat, l: nat)
    requires from <= |c| && IndexFrom(c, Close, from) == Some(l)
    ensures from <= l <= |c| && ThinkingFrom(c, from) == Trim(c[from..l])
  {
  }

  /** A message made of a thinking block and an answer splits into the two, each trimmed. */
  lemma SplitBlock(mid: string, post: string)
    requires !Contains(mid, Close)
    ensures Split(Open + mid + Close + post) == Thinking(Trim(mid), Trim(post))
  {
    BlockMarkers(mid, post);
    SplitAt(Open + mid + Close + post, |Open| + |mid|);
    BlockSlices(Open, mid, Close, post);
  }

  /** The second and fourth pieces of a four-piece concatenation, cut back out by position. */
  lemma BlockSlices(a: string, b: string, c: string, d: string)
    ensures (a + b + c + d)[|a|..|a| + |b|] == b
    ensures (a + b + c + d)[|a| + |b| + |c|..] == d
  {
    assert a + b + c + d == a + (b + (c + d));
  }

  /** A block whose two parts have no white space at their ends splits into exactly those parts. */
  lemma SplitTrimmedBlock(mid: string, post: string)
    requires !Contains(mid, Close)
    requires mid != [] && !IsSpace(mid[0]) && !IsSpace(mid[|mid| - 1])
    requires post != [] && !IsSpace(post[0]) && !IsSpace(post[|post| - 1])
    ensures Split(Open + mid + Close + post) == Thinking(mid, post)
  {
    TrimKeeps(mid);
    TrimKeeps(post);
    SplitBlock(mid, post);
  }

  /** "step one" holds no `</think>` and has no white space at its ends. */
  lemma StepOneFacts(mid: string)
    requires mid == "step one"
    ensures !Contains(mid, Close)
    ensures mid != [] && !IsSpace(mid[0]) && !IsSpace(mid[|mid| - 1])
  {
    assert mid[..|Close|][0] != Close[0];
    assert IndexFrom(mid, Close, 1) == None;
  }

  /** "Answer." has no white space at its ends. */
  lemma AnswerFacts(post: string)
    requires post == "Answer."
    ensures post != [] && !IsSpace(post[0]) && !IsSpace(post[|post| - 1])
  {
  }

  /** The example message is `<think>` + "step one" + `</think>` + "Answer.". */
  lemma ExampleParts(content: string)
    requires content == "<think>step one</think>Answer."
    ensures content == Open + "step one" + Close + "Answer."
  {
  }

  /** `"<think>step one</think>Answer."` shows "step one" as thinking and "Answer." as the answer. */
  lemma SplitExample(content: string)
    requires content == "<think>step one</think>Answer."
    ensures Split(content) == Thinking("step one", "Answer.")
  {
    ExampleParts(content);
    StepOneFacts("step one");
    AnswerFacts("Answer.");
    SplitTrimmedBlock("step one", "Answer.");
  }
}
