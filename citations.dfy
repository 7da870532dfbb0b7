/** The citation rewriter, `extract_citations_from_stream`: a streaming
    filter that buffers text while it may be the start of a citation marker
    `[n]` and rewrites the first citation of the buffer into the link form
    `[[n]](link)` using the 1-indexed list of links. */
module Citations {
  import opened Common

  predicate IsDigit(c: char) {
    '0' <= c <= '9'
  }

  ghost predicate AllDigits(s: string) {
    forall i :: 0 <= i < |s| ==> IsDigit(s[i])
  }

  /** Number of digits at the end of `s`. */
  function TrailingDigits(s: string): (n: nat)
    ensures n <= |s|
  {
    if s == [] || !IsDigit(s[|s| - 1]) then 0 else 1 + TrailingDigits(s[..|s| - 1])
  }

  /** Number of digits at the start of `s`. */
  function LeadingDigits(s: string): (n: nat)
    ensures n <= |s|
  {
    if s == [] || !IsDigit(s[0]) then 0 else 1 + LeadingDigits(s[1..])
  }

  /** The trailing run is made of digits and is maximal. */
  lemma {:induction false} TrailingDigitsRun(s: string)
    ensures var n := TrailingDigits(s);
      AllDigits(s[|s| - n..]) && (n < |s| ==> !IsDigit(s[|s| - n - 1]))
  {
    if s != [] && IsDigit(s[|s| - 1]) {
      var t := s[..|s| - 1];
      TrailingDigitsRun(t);
      var n := TrailingDigits(t);
      assert s[|s| - 1 - n..] == t[|t| - n..] + [s[|s| - 1]];
      if n < |t| {
        assert t[|t| - n - 1] == s[|s| - n - 2];
      }
    }
  }

  /** The leading run is made of digits and is maximal. */
  lemma {:induction false} LeadingDigitsRun(s: string)
    ensures var n := LeadingDigits(s);
      AllDigits(s[..n]) && (n < |s| ==> !IsDigit(s[n]))
  {
    if s != [] && IsDigit(s[0]) {
      LeadingDigitsRun(s[1..]);
      var n := LeadingDigits(s[1..]);
      assert s[..1 + n] == [s[0]] + s[1..][..n];
    }
  }

  /** `s` ends with "[" followed by zero or more digits. */
  predicate OpenTail(s: string) {
    var n := TrailingDigits(s);
    n < |s| && s[|s| - n - 1] == '['
  }

  /** `re.search(r"(\[\d*$)", s)` succeeds. Python's `$` matches at the end
      of the string and also just before a newline that ends it. */
  predicate PossibleCitation(s: string) {
    OpenTail(s) || (|s| > 0 && s[|s| - 1] == '\n' && OpenTail(s[..|s| - 1]))
  }

  /** The same pattern read directly: some "[" is followed only by digits up
      to the end of the string, or up to a final newline (`s[..|s| - 1]` is
      the string without that newline). */
  ghost predicate PossibleCitationRef(s: string) {
    exists i :: 0 <= i < |s| && s[i] == '['
      && (AllDigits(s[i + 1..]) || (s[|s| - 1] == '\n' && i < |s| - 1 && AllDigits(s[..|s| - 1][i + 1..])))
  }

  /** A digit run of length m that a non-digit precedes is the whole
      trailing run. */
  lemma {:induction false} TrailingDigitsExact(s: string, m: nat)
    requires m < |s| && AllDigits(s[|s| - m..]) && !IsDigit(s[|s| - m - 1])
    ensures TrailingDigits(s) == m
    decreases m
  {
    if m > 0 {
      var t := s[..|s| - 1];
      assert s[|s| - m..][m - 1] == s[|s| - 1];
      assert t[|t| - (m - 1)..] == s[|s| - m..|s| - 1];
      TrailingDigitsExact(t, m - 1);
    }
  }

  lemma OpenTailRef(s: string)
    ensures OpenTail(s) <==> exists i :: 0 <= i < |s| && s[i] == '[' && AllDigits(s[i + 1..])
  {
    var n := TrailingDigits(s);
    TrailingDigitsRun(s);
    if OpenTail(s) {
      var i := |s| - n - 1;
      assert s[i + 1..] == s[|s| - n..];
    }
    forall i | 0 <= i < |s| && s[i] == '[' && AllDigits(s[i + 1..])
      ensures OpenTail(s)
    {
      assert s[i + 1..] == s[|s| - (|s| - i - 1)..];
      TrailingDigitsExact(s, |s| - i - 1);
    }
  }

  /** The hand-written matcher agrees with the regular expression. */
  lemma PossibleCitationMatchesPattern(s: string)
    ensures PossibleCitation(s) <==> PossibleCitationRef(s)
  {
    OpenTailRef(s);
    if |s| > 0 && s[|s| - 1] == '\n' {
      var t := s[..|s| - 1];
      OpenTailRef(t);
      forall i | 0 <= i < |s| && s[i] == '[' ensures !AllDigits(s[i + 1..]) {
        assert s[i + 1..][|s| - 1 - (i + 1)] == s[|s| - 1];
      }
    }
  }

  /** `\[(\d+)\]` matches at position i: "[", one or more digits (the whole
      digit run, which the closing bracket must follow), "]". */
  predicate CitationAt(s: string, i: int) {
    0 <= i < |s| && s[i] == '['
    && var d := LeadingDigits(s[i + 1..]);
       d > 0 && i + 1 + d < |s| && s[i + 1 + d] == ']'
  }

  /** The leftmost match of `\[(\d+)\]` at or after `from`. */
  function FirstCitationFrom(s: string, from: nat): (r: Option<nat>)
    requires from <= |s|
    ensures r.Some? ==> from <= r.value < |s| && CitationAt(s, r.value)
    decreases |s| - from
  {
    if from == |s| then None
    else if CitationAt(s, from) then Some(from)
    else FirstCitationFrom(s, from + 1)
  }

  /** The match found is the leftmost one. */
  lemma {:induction false} FirstCitationLeftmost(s: string, from: nat)
    requires from <= |s|
    ensures var r := FirstCitationFrom(s, from);
      (r.Some? ==> forall j :: from <= j < r.value ==> !CitationAt(s, j))
      && (r.None? ==> forall j :: from <= j < |s| ==> !CitationAt(s, j))
    decreases |s| - from
  {
    if from < |s| && !CitationAt(s, from) {
      FirstCitationLeftmost(s, from + 1);
    }
  }

  /** The digits of the citation at position i (the regex's group 1). */
  function CitationDigits(s: string, i: nat): string
    requires CitationAt(s, i)
  {
    s[i + 1..i + 1 + LeadingDigits(s[i + 1..])]
  }

  function DigitValue(c: char): nat {
    if IsDigit(c) then c as int - '0' as int else 0
  }

  /** `int(...)` of a string of decimal digits. */
  function Decimal(ds: string): nat {
    if ds == [] then 0 else 10 * Decimal(ds[..|ds| - 1]) + DigitValue(ds[|ds| - 1])
  }

  /** `re.sub(c, r, s, count=1)` for a one-character pattern: the first
      occurrence of `c` is replaced by `r`. */
  function ReplaceFirst(s: string, c: char, r: string): string {
    if s == [] then []
    else if s[0] == c then r + s[1..]
    else [s[0]] + ReplaceFirst(s[1..], c, r)
  }

  /** Both substitutions of a rewrite in one pass: while `open` holds, the
      first "[" becomes "[["; while `close` holds, the first "]" becomes
      "]](link)". */
  function Substitute(s: string, link: string, open: bool, close: bool): string {
    if s == [] || (!open && !close) then s
    else if open && s[0] == '[' then "[[" + Substitute(s[1..], link, false, close)
    else if close && s[0] == ']' then "]](" + link + ")" + Substitute(s[1..], link, open, false)
    else [s[0]] + Substitute(s[1..], link, open, close)
  }

  /** The two substitutions of a rewrite: the first "[" becomes "[[", then the
      first "]" becomes "]](link)". Neither need belong to the citation. */
  function Rewrite(seg: string, link: string): string {
    Substitute(seg, link, true, true)
  }

  /** What a one-pass substitution should produce: the first "[" replaced
      (while `open` holds), then the first "]" of that result (while `close`
      holds). */
  function SubstituteSpec(s: string, link: string, open: bool, close: bool): string {
    var afterOpen := if open then ReplaceFirst(s, '[', "[[") else s;
    if close then ReplaceFirst(afterOpen, ']', "]](" + link + ")") else afterOpen
  }

  lemma SubstituteOpenStep(s: string, link: string, close: bool)
    requires s != [] && s[0] == '['
    requires Substitute(s[1..], link, false, close) == SubstituteSpec(s[1..], link, false, close)
    ensures Substitute(s, link, true, close) == SubstituteSpec(s, link, true, close)
  {
    var t := "[[" + s[1..];
    assert ReplaceFirst(s, '[', "[[") == t;
    assert t[0] == '[' && t[1..][0] == '[' && t[1..][1..] == s[1..];
    assert t[1..] == "[" + s[1..];
    if close {
      var r := "]](" + link + ")";
      assert ReplaceFirst(t[1..], ']', r) == "[" + ReplaceFirst(s[1..], ']', r);
      assert ReplaceFirst(t, ']', r) == "[" + ReplaceFirst(t[1..], ']', r);
      assert "[" + ("[" + ReplaceFirst(s[1..], ']', r)) == "[[" + ReplaceFirst(s[1..], ']', r);
    }
  }

  lemma SubstituteCloseStep(s: string, link: string, open: bool)
    requires s != [] && s[0] == ']'
    requires Substitute(s[1..], link, open, false) == SubstituteSpec(s[1..], link, open, false)
    ensures Substitute(s, link, open, true) == SubstituteSpec(s, link, open, true)
  {
    var afterOpen := if open then ReplaceFirst(s, '[', "[[") else s;
    var rest := if open then ReplaceFirst(s[1..], '[', "[[") else s[1..];
    assert afterOpen == [s[0]] + rest;
    assert afterOpen[0] == ']' && afterOpen[1..] == rest;
  }

  lemma SubstitutePlainStep(s: string, link: string, open: bool, close: bool)
    requires s != [] && (open || close) && !(open && s[0] == '[') && !(close && s[0] == ']')
    requires Substitute(s[1..], link, open, close) == SubstituteSpec(s[1..], link, open, close)
    ensures Substitute(s, link, open, close) == SubstituteSpec(s, link, open, close)
  {
    var afterOpen := if open then ReplaceFirst(s, '[', "[[") else s;
    var rest := if open then ReplaceFirst(s[1..], '[', "[[") else s[1..];
    assert afterOpen == [s[0]] + rest;
    assert afterOpen[0] == s[0] && afterOpen[1..] == rest;
  }

  /** The one-pass substitution performs the two first-occurrence
      replacements in sequence. */
  lemma {:induction false} SubstituteIsReplaceFirst(s: string, link: string, open: bool, close: bool)
    ensures Substitute(s, link, open, close) == SubstituteSpec(s, link, open, close)
  {
    if s == [] || (!open && !close) {
    } else if open && s[0] == '[' {
      SubstituteIsReplaceFirst(s[1..], link, false, close);
      SubstituteOpenStep(s, link, close);
    } else if close && s[0] == ']' {
      SubstituteIsReplaceFirst(s[1..], link, open, false);
      SubstituteCloseStep(s, link, open);
    } else {
      SubstituteIsReplaceFirst(s[1..], link, open, close);
      SubstitutePlainStep(s, link, open, close);
    }
  }

  /** The rewrite is the source's two `re.sub(..., count=1)` calls. */
  lemma RewriteIsTwoSubstitutions(seg: string, link: string)
    ensures Rewrite(seg, link) == ReplaceFirst(ReplaceFirst(seg, '[', "[["), ']', "]](" + link + ")")
  {
    SubstituteIsReplaceFirst(seg, link, true, true);
  }

  /** The state the filter carries between tokens. */
  datatype Cite = Cite(segment: string, prependBracket: bool)

  /** What one token does: the new state, the fragments yielded, and whether
      the step raised (an index past the end of the links). */
  datatype StepOut = StepOut(state: Cite, emitted: seq<string>, failed: bool)

  /** The fragments yielded before the stream ended or raised. */
  datatype CitationStream = CitationStream(pieces: seq<string>, failed: bool)

  /** Yield the buffer, withholding a final "[" for the next token. */
  function Flush(seg: string): (o: StepOut)
    ensures !o.failed && |o.emitted| == 1
    ensures o.state.segment == ""
  {
    if seg != "" && seg[|seg| - 1] == '[' then StepOut(Cite("", true), [seg[..|seg| - 1]], false)
    else StepOut(Cite("", false), [seg], false)
  }

  /** The buffer after a token arrives: a withheld "[" first (the source
      writes `curr_segment += "[" + curr_segment`), then the token. */
  function Buffer(st: Cite, token: string): string {
    (if st.prependBracket then st.segment + "[" + st.segment else st.segment) + token
  }

  /** The substitution a corrected filter would make: the same two
      substitutions, started at the citation found at `i`. */
  function RewriteAt(seg: string, i: nat, link: string): string
    requires i <= |seg|
  {
    seg[..i] + Rewrite(seg[i..], link)
  }

  /** The knobs on which the filter as written and the corrected filter
      differ: the largest citation number looked up, whether the citation
      itself (rather than the first "[" and "]") is rewritten, and whether a
      withheld "[" is yielded when the tokens run out. */
  datatype Rules = Rules(maxCitationNum: int, rewriteAtMatch: bool, flushHeldBracket: bool)

  /** The buffer after its citation at `i` is given `link`. */
  function Rewritten(seg: string, i: nat, link: string, rules: Rules): string
    requires i <= |seg|
  {
    if rules.rewriteAtMatch then RewriteAt(seg, i, link) else Rewrite(seg, link)
  }

  /** What the loop body does with the buffer: rewrite its first citation when
      the number is accepted and its link is truthy, raise when the number
      indexes past the links, hold it back while it may still grow into a
      citation, and otherwise yield it. */
  function Resolve(seg: string, links: seq<Option<string>>, rules: Rules): StepOut {
    match FirstCitationFrom(seg, 0)
    case Some(i) =>
      var n := Decimal(CitationDigits(seg, i));
      if 1 <= n <= rules.maxCitationNum && n > |links| then StepOut(Cite(seg, false), [], true)
      else if 1 <= n <= rules.maxCitationNum && Truthy(links[n - 1]) then
        Flush(Rewritten(seg, i, links[n - 1].value, rules))
      else Flush(seg)
    case None =>
      if PossibleCitation(seg) then StepOut(Cite(seg, false), [], false) else Flush(seg)
  }

  /** Proof helper: the two cases of `Flush`, unfolded. */
  lemma FlushCases(seg: string)
    ensures seg != "" && seg[|seg| - 1] == '[' ==> Flush(seg) == StepOut(Cite("", true), [seg[..|seg| - 1]], false)
    ensures !(seg != "" && seg[|seg| - 1] == '[') ==> Flush(seg) == StepOut(Cite("", false), [seg], false)
  {
  }

  /** Concatenation regroups, for pieces and for the text inside them. */
  lemma AppendAssoc<T>(a: seq<T>, b: seq<T>, c: seq<T>)
    ensures a + (b + c) == (a + b) + c
  {
  }

  /** One iteration of the loop over tokens. */
  function CitationStep(st: Cite, token: string, links: seq<Option<string>>, rules: Rules): StepOut {
    Resolve(Buffer(st, token), links, rules)
  }

  /** What is yielded when the tokens run out; with `flushHeldBracket` a
      withheld "[" is yielded too. */
  function FinishPieces(st: Cite, flushHeldBracket: bool): seq<string> {
    if st.segment != "" then (if st.prependBracket then ["[" + st.segment] else [st.segment])
    else if flushHeldBracket && st.prependBracket then ["["]
    else []
  }

  /** The filter run from state `st` over the remaining tokens. */
  function RunFrom(st: Cite, tokens: seq<string>, links: seq<Option<string>>, rules: Rules): CitationStream
    decreases |tokens|
  {
    if tokens == [] then CitationStream(FinishPieces(st, rules.flushHeldBracket), false)
    else
      var o := CitationStep(st, tokens[0], links, rules);
      if o.failed then CitationStream(o.emitted, true)
      else
        var rest := RunFrom(o.state, tokens[1..], links, rules);
        CitationStream(o.emitted + rest.pieces, rest.failed)
  }

  /** The source's rules: citation numbers up to len(links) + 1 are looked
      up, the first "[" and the first "]" of the buffer are rewritten, and a
      withheld "[" is not yielded at the end. */
  function AsWritten(links: seq<Option<string>>): Rules {
    Rules(|links| + 1, false, false)
  }

  /** The evidently intended rules: citation numbers up to len(links), the
      citation itself is rewritten, and a withheld "[" is yielded at the end. */
  function Corrected(links: seq<Option<string>>): Rules {
    Rules(|links|, true, true)
  }

  /** The filter as the source writes it; tokens pass through unchanged when
      there are no links. */
  function ExtractCitations(tokens: seq<string>, links: seq<Option<string>>): CitationStream {
    if links == [] then CitationStream(tokens, false)
    else RunFrom(Cite("", false), tokens, links, AsWritten(links))
  }

  /** The filter as evidently intended. */
  function ExtractCitationsCorrected(tokens: seq<string>, links: seq<Option<string>>): CitationStream {
    if links == [] then CitationStream(tokens, false)
    else RunFrom(Cite("", false), tokens, links, Corrected(links))
  }

  /** Proof helper: one unfolding of `RunFrom`, as a pass and the rest. */
  lemma RunFromStep(st: Cite, tokens: seq<string>, links: seq<Option<string>>, rules: Rules)
    requires tokens != []
    ensures var o := CitationStep(st, tokens[0], links, rules);
      RunFrom(st, tokens, links, rules)
      == if o.failed then CitationStream(o.emitted, true)
         else Continue(o.emitted, RunFrom(o.state, tokens[1..], links, rules))
  {
  }

  function Continue(out: seq<string>, rest: CitationStream): CitationStream {
    CitationStream(out + rest.pieces, rest.failed)
  }

  /** One pass of the loop body of `extract_citations_from_stream`: the new
      buffer and withheld-bracket flag, the fragments yielded, and whether the
      link lookup raised. */
  method ProcessToken(segment: string, bracket: bool, token: string, links: seq<Option<string>>, maxCitationNum: int)
    returns (currSegment: string, prependBracket: bool, emitted: seq<string>, failed: bool)
    ensures StepOut(Cite(currSegment, prependBracket), emitted, failed)
         == CitationStep(Cite(segment, bracket), token, links, Rules(maxCitationNum, false, false))
  {
    currSegment, prependBracket := segment, bracket;
    if prependBracket {
      currSegment := currSegment + "[" + currSegment;
      prependBracket := false;
    }
    currSegment := currSegment + token;
    assert currSegment == Buffer(Cite(segment, bracket), token);
    var possibleCitationFound := PossibleCitation(currSegment);
    var citationFound := FirstCitationFrom(currSegment, 0);
    if citationFound.Some? {
      var raised;
      currSegment, raised := ApplyCitation(currSegment, citationFound.value, links, maxCitationNum);
      if raised {
        return currSegment, false, [], true;
      }
      possibleCitationFound := false;
    } else if possibleCitationFound {
      return currSegment, false, [], false;
    }
    currSegment, prependBracket, emitted := FlushBuffer(currSegment);
    failed := false;
  }

  /** The citation branch of the loop body, for the buffer's first citation
      at `i`: look its number up and rewrite the buffer when the link is
      truthy, or raise when the number indexes past the links. */
  method ApplyCitation(segment: string, i: nat, links: seq<Option<string>>, maxCitationNum: int)
    returns (currSegment: string, raised: bool)
    requires i <= |segment| && FirstCitationFrom(segment, 0) == Some(i)
    ensures raised ==> Resolve(segment, links, Rules(maxCitationNum, false, false)) == StepOut(Cite(segment, false), [], true)
    ensures raised ==> currSegment == segment
    ensures !raised ==> Resolve(segment, links, Rules(maxCitationNum, false, false)) == Flush(currSegment)
  {
    currSegment, raised := segment, false;
    var numericalValue := Decimal(CitationDigits(segment, i));
    if 1 <= numericalValue <= maxCitationNum {
      if numericalValue > |links| {
        // links[numerical_value - 1] raises IndexError
        return segment, true;
      }
      var link := links[numericalValue - 1];
      if Truthy(link) {
        currSegment := Rewrite(segment, link.value);
      }
    }
  }

  /** The end of the loop body: a final "[" of the buffer is withheld for
      the next token, the rest is yielded, and the buffer is emptied. */
  method FlushBuffer(segment: string) returns (currSegment: string, prependBracket: bool, emitted: seq<string>)
    ensures StepOut(Cite(currSegment, prependBracket), emitted, false) == Flush(segment)
  {
    currSegment, prependBracket := segment, false;
    if currSegment != "" && currSegment[|currSegment| - 1] == '[' {
      currSegment := currSegment[..|currSegment| - 1];
      prependBracket := true;
    }
    emitted := [currSegment];
    currSegment := "";
  }

  /** `extract_citations_from_stream`, over the whole token sequence: the
      fragments yielded and whether the generator raised after them. */
  method ExtractCitationsFromStream(tokens: seq<string>, links: seq<Option<string>>)
    returns (out: seq<string>, failed: bool)
    ensures CitationStream(out, failed) == ExtractCitations(tokens, links)
    ensures links == [] ==> out == tokens && !failed
  {
    if links == [] {
      return tokens, false;
    }
    var maxCitationNum := |links| + 1;
    var currSegment := "";
    var prependBracket := false;
    out, failed := [], false;
    for k := 0 to |tokens|
      invariant Continue(out, RunFrom(Cite(currSegment, prependBracket), tokens[k..], links, AsWritten(links)))
             == ExtractCitations(tokens, links)
      invariant !failed
    {
      assert tokens[k..][1..] == tokens[k + 1..];
      RunFromStep(Cite(currSegment, prependBracket), tokens[k..], links, AsWritten(links));
      ghost var before := out;
      var emitted;
      currSegment, prependBracket, emitted, failed := ProcessToken(currSegment, prependBracket, tokens[k], links, maxCitationNum);
      out := out + emitted;
      if failed {
        return;
      }
      ghost var rest := RunFrom(Cite(currSegment, prependBracket), tokens[k + 1..], links, AsWritten(links));
      AppendAssoc(before, emitted, rest.pieces);
    }
    if currSegment != "" {
      if prependBracket {
        out := out + ["[" + currSegment];
      } else {
        out := out + [currSegment];
      }
    }
  }
}
