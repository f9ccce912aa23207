/**
 * Reading the JSON object out of a language model's answer, as both summarisers do:
 * the text from the first `{` to the last `}` (`re.search(r'\{.*\}', text, re.DOTALL)`),
 * kept only when it parses as JSON, and otherwise the fixed failure message. The model
 * call and the JSON parser are passed in.
 */
module JsonSpan {
  import opened Wrappers
  import opened Text

  const Failed: string := "요약에 실패했습니다."

  const NoModel: string := "요약에 실패했습니다. 모델이 초기화되지 않았습니다."

  /** What `summarize` does: return a text, or let an exception out. */
  datatype Answer = Returned(text: string) | Raises

  /** The start and end of the match: the first `{` and the last `}`, when that `}` comes
      after that `{`. The regex scans for the leftmost `{` with a `}` somewhere after it,
      and the greedy `.*` runs on to the last `}`. */
  function SpanBounds(s: string): (r: Option<(nat, nat)>)
    ensures r.Some? ==>
      && r.value.0 < r.value.1 < |s|
      && s[r.value.0] == '{' && s[r.value.1] == '}'
      && '{' !in s[..r.value.0] && '}' !in s[r.value.1 + 1..]
    ensures r.None? <==> forall a, b :: 0 <= a < b < |s| && s[a] == '{' ==> s[b] != '}'
  {
    if '{' !in s || '}' !in s then
      None
    else
      var a := IndexOf(s, '{');
      var b := LastIndexOf(s, '}');
      if a < b then Some((a, b))
      else
        assert forall i, j :: 0 <= i < j < |s| && s[i] == '{' ==> s[j] != '}' by {
          forall i, j | 0 <= i < j < |s| && s[i] == '{' ensures s[j] != '}' {
            assert s[j] in s[b + 1..];
          }
        }
        None
  }

  /** `json_match.group(0)`. */
  function Span(s: string): (r: Option<string>)
    ensures r.Some? ==> |r.value| >= 2 && r.value[0] == '{' && r.value[|r.value| - 1] == '}'
  {
    match SpanBounds(s)
    case None => None
    case Some((a, b)) => Some(s[a..b + 1])
  }

  /** The span is the whole answer when the answer is itself one object with nothing
      around it. */
  lemma SpanOfObject(body: string)
    requires '{' !in body && '}' !in body
    ensures Span("{" + body + "}") == Some("{" + body + "}")
  {
    var s := "{" + body + "}";
    assert s[0] == '{' && s[|s| - 1] == '}';
    forall k | 0 < k < |s| - 1 ensures s[k] != '{' && s[k] != '}' {
      assert s[k] == body[k - 1];
    }
    assert s[..0] == [];
    assert s[|s|..] == [];
    assert s[0..|s|] == s;
  }

  /** Text around the object is dropped, whatever it holds besides braces. */
  lemma SpanIgnoresSurroundings(pre: string, body: string, post: string)
    requires '{' !in pre && '}' !in pre && '{' !in post && '}' !in post
    requires '{' !in body && '}' !in body
    ensures Span(pre + "{" + body + "}" + post) == Some("{" + body + "}")
  {
    var s := pre + "{" + body + "}" + post;
    var a := |pre|;
    var b := |pre| + |body| + 1;
    assert s[a] == '{' && s[b] == '}';
    assert s[..a] == pre;
    assert s[b + 1..] == post;
    var r := SpanBounds(s);
    assert r.Some?;
    forall k | 0 <= k < |s| && k != a && k != b ensures s[k] != '{' && s[k] != '}' {
      if k < a {
        assert s[k] == pre[k];
      } else if k < b {
        assert s[k] == body[k - a - 1];
      } else {
        assert s[k] == post[k - b - 1];
      }
    }
    assert s[a..b + 1] == "{" + body + "}";
  }

  /** What `summarize` makes of the model's answer, `None` when the call or reading its
      text raised (the error handler reads `response.text` again, so it raises too). The
      `strip()` of the span changes nothing, as the span starts and ends with a brace. */
  function FromReply(reply: Option<string>, isJson: string -> bool): (r: Answer)
    ensures r == Raises <==> reply.None?
    ensures reply.Some? && Span(reply.value).Some? && isJson(Span(reply.value).value) ==>
      r == Returned(Span(reply.value).value)
    ensures reply.Some? && (Span(reply.value).None? || !isJson(Span(reply.value).value)) ==> r == Returned(Failed)
  {
    match reply
    case None => Raises
    case Some(text) =>
      match Span(text)
      case None => Returned(Failed)
      case Some(json) =>
        if isJson(json) then
          StripNoSpace(json);
          Returned(Strip(json))
        else Returned(Failed)
  }
}
