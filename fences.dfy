/** `strip_backticks` from `modify_bot.py`: removing the code fence around a
    snippet the fetch bot quoted. */
module Fences {
  import opened PyStr

  const Fence := "```"

  /** The opening-fence step: from the first newline on (the last character
      when there is none, since `find` then returns -1). */
  function DropOpeningFence(t: string): string
  {
    if StartsWith(t, Fence) then Slice(t, Find(t, '\n'), |t|) else t
  }

  /** The closing-fence step: up to the last newline (all but the last
      character when there is none, since `rfind` then returns -1). */
  function DropClosingFence(t: string): string
  {
    if EndsWith(t, Fence) then Slice(t, 0, RFind(t, '\n')) else t
  }

  /** `strip_backticks`: strip whitespace, drop an opening fence line and a
      closing fence line, strip newlines, and map a bare `""` to the empty string. */
  function StripBackticks(s: string): (r: string)
    ensures r == [] || (r[0] != '\n' && r[|r| - 1] != '\n')
  {
    var body := Strip(DropClosingFence(DropOpeningFence(Strip(s, Whitespace))), {'\n'});
    if body == "\"\"" then "" else body
  }

  /** An input that strips to `""` (two quote characters) yields the empty string. */
  lemma StripBackticksEmptyQuotes(s: string)
    requires Strip(s, Whitespace) == "\"\""
    ensures StripBackticks(s) == ""
  {
    var t := Strip(s, Whitespace);
    assert !StartsWith(t, Fence) && !EndsWith(t, Fence);
    StripOfStripped(t, {'\n'});
  }

  /** A fenced input with no newline at all: `find` returns -1, so the slice
      keeps only the last character. */
  lemma StripBackticksFenceWithoutNewline(s: string)
    requires StartsWith(Strip(s, Whitespace), Fence)
    requires '\n' !in Strip(s, Whitespace)
    ensures var t := Strip(s, Whitespace); StripBackticks(s) == [t[|t| - 1]]
  {
    var t := Strip(s, Whitespace);
    assert Find(t, '\n') == -1;
    var headless := Slice(t, -1, |t|);
    assert headless == [t[|t| - 1]];
    assert !EndsWith(headless, Fence);
    assert '\n' in Whitespace;
    StripOfStripped(headless, {'\n'});
  }

  /** Text with no surrounding whitespace and no fence at either end passes
      through unchanged. */
  lemma StripBackticksPlain(s: string)
    requires Strip(s, Whitespace) == s
    requires !StartsWith(s, Fence) && !EndsWith(s, Fence)
    requires s != "\"\""
    ensures StripBackticks(s) == s
  {
    assert '\n' in Whitespace;
    StripOfStripped(s, {'\n'});
  }

  /** An opening fence line "```lang" followed by a newline is dropped, and the
      newline is kept. */
  lemma {:induction false} DropOpeningFenceLine(lang: string, rest: string)
    requires '\n' !in lang
    ensures DropOpeningFence(Fence + lang + "\n" + rest) == "\n" + rest
  {
    var t := Fence + lang + "\n" + rest;
    var k := |Fence| + |lang|;
    assert t[..|Fence|] == Fence;
    assert t[k] == '\n';
    assert forall j :: 0 <= j < k ==> t[j] == (Fence + lang)[j];
    FindFromIs(t, '\n', 0, k);
    assert t[k..] == "\n" + rest;
  }

  /** A closing fence line "\n```" is dropped together with its newline. */
  lemma DropClosingFenceLine(x: string)
    ensures DropClosingFence(x + "\n" + Fence) == x
  {
    var t := x + "\n" + Fence;
    assert t[|t| - 3..] == Fence;
    assert t[|x|] == '\n';
    assert RFindBefore(t, '\n', |t|) == |x|;
    assert t[..|x|] == x;
  }

  /** A fence with nothing inside, such as the example the module's `__main__`
      block runs ("\n```python\n```"), yields the empty string. */
  lemma StripBackticksEmptyFence(s: string, lang: string)
    requires Strip(s, Whitespace) == Fence + lang + "\n" + Fence
    requires '\n' !in lang
    ensures StripBackticks(s) == ""
  {
    DropOpeningFenceLine(lang, Fence);
    DropClosingFenceLine("");
    assert "" + "\n" + Fence == "\n" + Fence;
    StripOfStripped("", {'\n'});
  }

  /** A fenced block "```lang\nbody\n```" gives back its body, for a body that
      does not begin or end with a newline and is not `""`. */
  lemma StripBackticksFenced(lang: string, body: string)
    requires '\n' !in lang
    requires body != [] && body[0] != '\n' && body[|body| - 1] != '\n'
    requires body != "\"\""
    ensures StripBackticks(Fence + lang + "\n" + body + "\n" + Fence) == body
  {
    var s := Fence + lang + "\n" + body + "\n" + Fence;
    assert s[0] == '`' && s[|s| - 1] == '`';
    StripOfStripped(s, Whitespace);
    assert s == Fence + lang + "\n" + (body + "\n" + Fence);
    DropOpeningFenceLine(lang, body + "\n" + Fence);
    assert "\n" + (body + "\n" + Fence) == ("\n" + body) + "\n" + Fence;
    DropClosingFenceLine("\n" + body);
    StripNewlineLead(body);
  }

  /** One leading newline before newline-free ends strips away. */
  lemma StripNewlineLead(body: string)
    requires body != [] && body[0] != '\n' && body[|body| - 1] != '\n'
    ensures Strip("\n" + body, {'\n'}) == body
  {
    var t := "\n" + body;
    assert SkipBackFrom(t, {'\n'}, |t|) == |t|;
    assert t[..|t|] == t;
    assert SkipFrom(t, {'\n'}, 0) == 1 by {
      assert t[1] == body[0];
    }
    assert t[1..] == body;
  }
}
