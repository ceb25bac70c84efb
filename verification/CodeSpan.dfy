/** The inline code span of scripts/render-error-docs.js, and the CommonMark
    0.31.2 rule (section 6.1) that reads one back. */
module CodeSpan {
  import opened Options

  const TICK := '`'

  /** How many backticks `s` starts with. */
  function LeadRun(s: string): (n: nat)
    ensures n <= |s| && (forall i :: 0 <= i < n ==> s[i] == TICK) && (n < |s| ==> s[n] != TICK)
  {
    if s == "" || s[0] != TICK then 0 else 1 + LeadRun(s[1..])
  }

  /** The maximal runs of backticks: `text.match(/`+/g)`. */
  function Runs(s: string): seq<string>
    decreases |s|
  {
    if s == "" then []
    else if s[0] != TICK then Runs(s[1..])
    else
      var n := LeadRun(s);
      [s[..n]] + Runs(s[n..])
  }

  function Max(a: nat, b: nat): nat { if a >= b then a else b }

  function Longest(runs: seq<string>): nat
  {
    if runs == [] then 0 else Max(Longest(runs[..|runs| - 1]), |runs[|runs| - 1]|)
  }

  function Ticks(n: nat): (s: string)
    ensures |s| == n && forall i :: 0 <= i < n ==> s[i] == TICK
  {
    seq(n, i => TICK)
  }

  predicate NeedsPad(text: string)
  {
    && text != ""
    && (text[0] == TICK || text[|text| - 1] == TICK || (text[0] == ' ' && text[|text| - 1] == ' '))
  }

  function Span(text: string): string
  {
    var fence := Ticks(Longest(Runs(text)) + 1);
    fence + Body(text) + fence
  }

  function Body(text: string): string { if NeedsPad(text) then " " + text + " " else text }

  lemma PaddedIsBody(text: string, pad: string, fence: string)
    requires pad == if NeedsPad(text) then " " else ""
    ensures fence + pad + text + pad + fence == fence + Body(text) + fence
  {
    assert pad + text + pad == Body(text);
    assert fence + pad + text + pad + fence == fence + (pad + text + pad) + fence;
  }

  method RenderCodeSpan(text: string) returns (span: string)
    ensures span == Span(text)
  {
    var runs := Runs(text);
    var longest: nat := 0;
    for i := 0 to |runs|
      invariant longest == Longest(runs[..i])
    {
      assert runs[..i + 1][..i] == runs[..i];
      longest := Max(longest, |runs[i]|);
    }
    assert runs[..|runs|] == runs;
    var fence := Ticks(longest + 1);
    var pad := if NeedsPad(text) then " " else "";
    span := fence + pad + text + pad + fence;
    PaddedIsBody(text, pad, fence);
  }

  // ---------------------------------------------------------------------
  // Reading a span

  /** Where the first run of exactly `n` backticks starts. */
  function FindClose(s: string, n: nat): (r: Option<nat>)
    ensures r.Some? ==> r.value + n <= |s| && (n > 0 ==> r.value < |s| && s[r.value] == TICK)
    decreases |s|
  {
    if s == "" then None
    else if s[0] != TICK then
      var r := FindClose(s[1..], n);
      if r.None? then None else Some(r.value + 1)
    else
      var k := LeadRun(s);
      if k == n then Some(0)
      else
        var r := FindClose(s[k..], n);
        if r.None? then None else Some(r.value + k)
  }

  /** Line endings become spaces. */
  function Unfold(s: string): string
    decreases |s|
  {
    if s == "" then ""
    else if |s| > 1 && s[0] == '\r' && s[1] == '\n' then " " + Unfold(s[2..])
    else if s[0] == '\r' || s[0] == '\n' then " " + Unfold(s[1..])
    else [s[0]] + Unfold(s[1..])
  }

  predicate AllSpaces(s: string) { forall i :: 0 <= i < |s| ==> s[i] == ' ' }

  /** One space goes from each end, unless there is nothing but spaces. */
  function Strip(s: string): string
  {
    if !AllSpaces(s) && s[0] == ' ' && s[|s| - 1] == ' ' then s[1..|s| - 1] else s
  }

  /** The content of the code span that `s` starts with, and what follows it. */
  function Parse(s: string): Option<(string, string)>
  {
    var n := LeadRun(s);
    var close := FindClose(s[n..], n);
    if n == 0 || close.None? then None
    else Some((Strip(Unfold(s[n..][..close.value])), s[n..][close.value + n..]))
  }

  // ---------------------------------------------------------------------
  // Rendering and reading

  function LongestRun(s: string): nat
    decreases |s|
  {
    if s == "" then 0
    else if s[0] != TICK then LongestRun(s[1..])
    else Max(LeadRun(s), LongestRun(s[LeadRun(s)..]))
  }

  lemma {:induction false} LongestOfMore(run: string, runs: seq<string>)
    ensures Longest([run] + runs) == Max(|run|, Longest(runs))
    decreases |runs|
  {
    if runs == [] {
      assert [run] + runs == [run] && [run][..0] == [];
    } else {
      var n := |runs| - 1;
      LongestOfMore(run, runs[..n]);
      assert ([run] + runs)[..n + 1] == [run] + runs[..n];
    }
  }

  /** The loop over the matched runs finds the longest run of the text. */
  lemma {:induction false} LongestIsLongestRun(s: string)
    ensures Longest(Runs(s)) == LongestRun(s)
    decreases |s|
  {
    if s != "" {
      if s[0] != TICK {
        LongestIsLongestRun(s[1..]);
      } else {
        var n := LeadRun(s);
        LongestIsLongestRun(s[n..]);
        LongestOfMore(s[..n], Runs(s[n..]));
      }
    }
  }

  lemma {:induction false} LeadRunIs(s: string, n: nat)
    requires n <= |s| && (forall i :: 0 <= i < n ==> s[i] == TICK) && (n < |s| ==> s[n] != TICK)
    ensures LeadRun(s) == n
  {
    assert LeadRun(s) < |s| ==> s[LeadRun(s)] != TICK;
  }

  lemma {:induction false} SpaceAddsNoRun(s: string)
    ensures LongestRun(s + " ") == LongestRun(s)
    decreases |s|
  {
    if s == "" {
      assert (s + " ")[1..] == "";
    } else if s[0] != TICK {
      SpaceAddsNoRun(s[1..]);
      assert (s + " ")[1..] == s[1..] + " ";
    } else {
      var n := LeadRun(s);
      LeadRunIs(s + " ", n);
      SpaceAddsNoRun(s[n..]);
      assert (s + " ")[n..] == s[n..] + " ";
    }
  }

  lemma BodyHasNoLongerRun(text: string)
    ensures LongestRun(Body(text)) == LongestRun(text)
    ensures Body(text) != "" ==> Body(text)[0] != TICK && Body(text)[|Body(text)| - 1] != TICK
  {
    if NeedsPad(text) {
      SpaceAddsNoRun(" " + text);
      assert (" " + text)[1..] == text;
      assert LongestRun(" " + text) == LongestRun(text);
    }
  }

  lemma SkipOne(s: string, rest: string, n: nat, at: nat)
    requires s != "" && s[0] != TICK && s[1..] == rest && FindClose(rest, n) == Some(at)
    ensures FindClose(s, n) == Some(at + 1)
  {
  }

  lemma SkipRun(s: string, rest: string, n: nat, k: nat, at: nat)
    requires 0 < k <= |s| && k < n && LeadRun(s) == k && s[k..] == rest && FindClose(rest, n) == Some(at)
    ensures FindClose(s, n) == Some(at + k)
  {
  }

  lemma LeadRunStays(body: string, tail: string)
    requires body != "" && body[|body| - 1] != TICK
    ensures LeadRun(body) < |body| && LeadRun(body + tail) == LeadRun(body)
  {
    LeadRunIs(body + tail, LeadRun(body));
  }

  lemma ClosesStep(body: string, tail: string, n: nat, k: nat)
    requires body != "" && body[|body| - 1] != TICK
    requires 0 < k <= |body| && k == (if body[0] != TICK then 1 else LeadRun(body)) && (body[0] == TICK ==> k < n)
    requires FindClose(body[k..] + tail, n) == Some(|body| - k)
    ensures FindClose(body + tail, n) == Some(|body|)
  {
    var s, rest := body + tail, body[k..] + tail;
    LeadRunStays(body, tail);
    assert s[k..] == rest && s[0] == body[0];
    if body[0] != TICK {
      SkipOne(s, rest, n, |body| - k);
    } else {
      SkipRun(s, rest, n, k, |body| - k);
    }
  }

  /** With every run of the body shorter than the fence, the closing fence is
      the first to match. */
  lemma {:induction false} ClosesAtFence(body: string, n: nat, tail: string)
    requires LongestRun(body) < n && (body != "" ==> body[|body| - 1] != TICK)
    requires LeadRun(tail) == n
    ensures FindClose(body + tail, n) == Some(|body|)
    decreases |body|
  {
    if body == "" {
      FenceCloses(tail, n);
      assert body + tail == tail;
    } else {
      var k := Advance(body);
      ClosesAtFence(body[k..], n, tail);
      ClosesStep(body, tail, n, k);
    }
  }

  lemma FenceCloses(tail: string, n: nat)
    requires n > 0 && LeadRun(tail) == n
    ensures FindClose(tail, n) == Some(0)
  {
  }

  lemma Advance(body: string) returns (k: nat)
    requires body != "" && body[|body| - 1] != TICK
    ensures 0 < k <= |body| && k == if body[0] != TICK then 1 else LeadRun(body)
    ensures LongestRun(body[k..]) <= LongestRun(body) && (body[0] == TICK ==> k <= LongestRun(body))
    ensures body[k..] != "" ==> body[k..][|body[k..]| - 1] != TICK
  {
    k := if body[0] != TICK then 1 else LeadRun(body);
  }

  ghost predicate OneLine(s: string) { '\n' !in s && '\r' !in s }

  lemma {:induction false} UnfoldOneLine(s: string)
    requires OneLine(s)
    ensures Unfold(s) == s
  {
    if s != "" {
      assert s[0] in s;
      UnfoldOneLine(s[1..]);
      assert s == [s[0]] + s[1..];
    }
  }

  lemma {:induction false} UnfoldIsOneLine(s: string)
    ensures OneLine(Unfold(s))
    decreases |s|
  {
    if s != "" {
      UnfoldIsOneLine(s[1..]);
      if |s| > 1 { UnfoldIsOneLine(s[2..]); }
    }
  }

  /** The opening fence, and what comes after it. */
  lemma SpanOpens(text: string, after: string)
    requires text != ""
    ensures var n, s := Longest(Runs(text)) + 1, Span(text) + after;
            LeadRun(s) == n && s[n..] == Body(text) + (Ticks(n) + after)
  {
    var n, s := Longest(Runs(text)) + 1, Span(text) + after;
    BodyHasNoLongerRun(text);
    assert s == Ticks(n) + (Body(text) + (Ticks(n) + after));
    assert s[n] == Body(text)[0];
    LeadRunIs(s, n);
  }

  lemma ParsedAt(s: string, n: nat, body: string, close: nat)
    requires n > 0 && LeadRun(s) == n && s[n..] == body && FindClose(body, n) == Some(close)
    ensures Parse(s) == Some((Strip(Unfold(body[..close])), body[close + n..]))
  {
  }

  lemma AroundClose(text: string, fence: string, after: string)
    ensures var body := text + (fence + after); body[..|text|] == text && body[|text| + |fence|..] == after
  {
  }

  /** The body ends at the closing fence. */
  lemma BodyCloses(text: string, n: nat, after: string)
    requires n == Longest(Runs(text)) + 1 && text != "" && (after == "" || after[0] != TICK)
    ensures FindClose(Body(text) + (Ticks(n) + after), n) == Some(|Body(text)|)
  {
    LongestIsLongestRun(text);
    BodyHasNoLongerRun(text);
    LeadRunIs(Ticks(n) + after, n);
    ClosesAtFence(Body(text), n, Ticks(n) + after);
  }

  lemma SpanParses(text: string, after: string)
    requires text != "" && (after == "" || after[0] != TICK)
    ensures Parse(Span(text) + after) == Some((Strip(Unfold(Body(text))), after))
  {
    var body, n := Body(text), Longest(Runs(text)) + 1;
    SpanOpens(text, after);
    BodyCloses(text, n, after);
    ParsedAt(Span(text) + after, n, body + (Ticks(n) + after), |body|);
    AroundClose(body, Ticks(n), after);
  }

  lemma StripUndoesPad(text: string)
    requires !AllSpaces(text)
    ensures Strip(Body(text)) == text
  {
    var i :| 0 <= i < |text| && text[i] != ' ';
    if NeedsPad(text) {
      var body := " " + text + " ";
      assert body[i + 1] == text[i];
      assert body[1..|body| - 1] == text;
    }
  }

  lemma LineEndingIsLost(text: string)
    requires !OneLine(text)
    ensures Strip(Unfold(Body(text))) != text
  {
    UnfoldIsOneLine(Body(text));
    var content := Unfold(Body(text));
    assert forall c :: c in Strip(content) ==> c in content;
  }

  lemma SpacesKeepPadding(text: string)
    requires text != "" && AllSpaces(text)
    ensures Strip(Body(text)) != text
  {
    assert AllSpaces(Body(text));
    assert |Body(text)| == |text| + 2;
  }

  /** A text of one line with something in it besides spaces comes back as it
      was. No other text does: nothing but spaces keeps its padding, an empty
      text closes nothing, and a line ending is lost. */
  lemma RoundTrip(text: string, after: string)
    requires after == "" || after[0] != TICK
    ensures Parse(Span(text) + after) == Some((text, after)) <==> OneLine(text) && !AllSpaces(text)
  {
    if text == "" {
      EmptyIsLost(after);
    } else {
      SpanParses(text, after);
      if !OneLine(text) {
        LineEndingIsLost(text);
      } else {
        UnfoldOneLine(Body(text));
        if AllSpaces(text) { SpacesKeepPadding(text); } else { StripUndoesPad(text); }
      }
    }
  }

  lemma EmptyIsLost(after: string)
    requires after == "" || after[0] != TICK
    ensures Parse(Span("") + after) != Some(("", after))
  {
    var s := Span("") + after;
    assert s == Ticks(1) + Ticks(1) + after;
    LeadRunIs(s, 2);
    assert s[2..] == after;
  }

  // ---------------------------------------------------------------------
  // The padding is there exactly where it is needed

  /** The span without padding. */
  function Bare(text: string): string
  {
    var fence := Ticks(Longest(Runs(text)) + 1);
    fence + text + fence
  }

  lemma {:induction false} UnfoldShrinks(s: string)
    ensures |Unfold(s)| <= |s|
    decreases |s|
  {
    if s != "" {
      UnfoldShrinks(s[1..]);
      if |s| > 1 { UnfoldShrinks(s[2..]); }
    }
  }

  lemma ContentShrinks(s: string)
    ensures |Strip(Unfold(s))| <= |s|
  {
    UnfoldShrinks(s);
  }

  /** A closing run is a whole run. */
  lemma {:induction false} CloseIsRunStart(s: string, n: nat)
    requires n > 0 && FindClose(s, n).Some?
    ensures var r := FindClose(s, n).value; r == 0 || s[r - 1] != TICK
    decreases |s|
  {
    if s[0] != TICK {
      CloseIsRunStart(s[1..], n);
    } else if LeadRun(s) != n {
      CloseIsRunStart(s[LeadRun(s)..], n);
    }
  }

  /** What is read back has the length of what lies between the fences at most. */
  lemma ParsedLength(s: string, n: nat, content: string, after: string)
    requires LeadRun(s) == n && Parse(s) == Some((content, after))
    ensures |content| + 2 * n + |after| <= |s|
  {
    ContentShrinks(s[n..][..FindClose(s[n..], n).value]);
  }

  lemma LeadRunGrows(n: nat, text: string, tail: string)
    requires text != "" && text[0] == TICK
    ensures LeadRun(Ticks(n) + text + tail) > n
  {
    var s := Ticks(n) + text + tail;
    assert s[n] == text[0];
    assert forall i :: 0 <= i <= n ==> s[i] == TICK;
  }

  /** A first backtick joins the opening fence. */
  lemma FirstTickIsLost(text: string, after: string)
    requires text != "" && text[0] == TICK
    ensures Parse(Bare(text) + after) != Some((text, after))
  {
    var n := Longest(Runs(text)) + 1;
    var s := Bare(text) + after;
    assert s == Ticks(n) + text + (Ticks(n) + after);
    LeadRunGrows(n, text, Ticks(n) + after);
    if Parse(s) == Some((text, after)) { ParsedLength(s, LeadRun(s), text, after); }
  }

  lemma BareOpens(text: string, after: string)
    requires text != "" && text[0] != TICK
    ensures var n, s := Longest(Runs(text)) + 1, Bare(text) + after;
            LeadRun(s) == n && s[n..] == text + (Ticks(n) + after)
  {
    var n, s := Longest(Runs(text)) + 1, Bare(text) + after;
    assert s == Ticks(n) + (text + (Ticks(n) + after));
    assert s[n] == text[0];
    LeadRunIs(s, n);
  }

  /** A last backtick joins the closing fence. */
  lemma LastTickIsLost(text: string, after: string)
    requires text != "" && text[0] != TICK && text[|text| - 1] == TICK
    ensures Parse(Bare(text) + after) != Some((text, after))
  {
    var n := Longest(Runs(text)) + 1;
    var body := text + (Ticks(n) + after);
    BareOpens(text, after);
    var close := FindClose(body, n);
    if close.Some? {
      CloseIsRunStart(body, n);
      ParsedAt(Bare(text) + after, n, body, close.value);
      assert body[|text| - 1] == TICK;
      assert close.value != |text|;
      assert |body[close.value + n..]| != |after|;
    }
  }

  /** The bare text ends at its closing fence. */
  lemma BareCloses(text: string, n: nat, after: string)
    requires n == Longest(Runs(text)) + 1 && text != "" && text[|text| - 1] != TICK && (after == "" || after[0] != TICK)
    ensures FindClose(text + (Ticks(n) + after), n) == Some(|text|)
  {
    LongestIsLongestRun(text);
    LeadRunIs(Ticks(n) + after, n);
    ClosesAtFence(text, n, Ticks(n) + after);
  }

  lemma BareParses(text: string, after: string)
    requires text != "" && text[0] != TICK && text[|text| - 1] != TICK && (after == "" || after[0] != TICK)
    ensures Parse(Bare(text) + after) == Some((Strip(Unfold(text)), after))
  {
    var n := Longest(Runs(text)) + 1;
    BareOpens(text, after);
    BareCloses(text, n, after);
    ParsedAt(Bare(text) + after, n, text + (Ticks(n) + after), |text|);
    AroundClose(text, Ticks(n), after);
  }

  /** A space at each end is stripped. */
  lemma SpacesAreStripped(text: string, after: string)
    requires OneLine(text) && !AllSpaces(text) && text[0] == ' ' && text[|text| - 1] == ' '
    requires after == "" || after[0] != TICK
    ensures Parse(Bare(text) + after) != Some((text, after))
  {
    BareParses(text, after);
    UnfoldOneLine(text);
    assert |Strip(text)| < |text|;
  }

  /** Where the span reads back at all, it is padded exactly when it would not
      read back without. */
  lemma PaddedExactly(text: string, after: string)
    requires OneLine(text) && !AllSpaces(text) && (after == "" || after[0] != TICK)
    ensures NeedsPad(text) <==> Parse(Bare(text) + after) != Some((text, after))
    ensures Body(text) == if Parse(Bare(text) + after) == Some((text, after)) then text else " " + text + " "
  {
    if !NeedsPad(text) {
      RoundTrip(text, after);
      assert Span(text) == Bare(text);
    } else if text[0] == TICK {
      FirstTickIsLost(text, after);
    } else if text[|text| - 1] == TICK {
      LastTickIsLost(text, after);
    } else {
      SpacesAreStripped(text, after);
    }
  }

  /** A word, and a backtick, as they are rendered. */
  lemma SpanOfWordAndTick()
    ensures Span("a") == "`a`" && Span("`") == "`` ` ``"
  {
    assert Runs("a") == [] by { assert "a"[1..] == ""; }
    assert LeadRun("`") == 1 by { assert "`"[1..] == ""; }
    assert Runs("`") == ["`"] by { assert "`"[..1] == "`" && "`"[1..] == ""; }
    assert ["`"][..0] == [] && Longest(["`"]) == 1;
    assert Ticks(1) == "`" && Ticks(2) == "``";
  }
}
