/** What the citation filter of module Citations guarantees, and where the
    filter as written departs from the evidently intended one. */
module CitationProperties {
  import opened Common
  import opened Citations

  // ---------------------------------------------------------------------
  // Scanning helpers

  lemma {:induction false} LeadingDigitsExact(s: string, m: nat)
    requires m < |s| && AllDigits(s[..m]) && !IsDigit(s[m])
    ensures LeadingDigits(s) == m
    decreases m
  {
    if m > 0 {
      assert s[..m][0] == s[0];
      assert s[1..][..m - 1] == s[1..m];
      LeadingDigitsExact(s[1..], m - 1);
    }
  }

  lemma {:induction false} FindCharAt(s: string, c: char, k: nat)
    requires k < |s| && s[k] == c
    requires forall j :: 0 <= j < k ==> s[j] != c
    ensures FindChar(s, c) == k
    decreases k
  {
    if k > 0 {
      assert forall j :: 0 <= j < k - 1 ==> s[1..][j] == s[j + 1];
      FindCharAt(s[1..], c, k - 1);
    }
  }

  /** `c` does not occur in `s`. */
  predicate Free(s: string, c: char) {
    forall j :: 0 <= j < |s| ==> s[j] != c
  }

  /** A buffer `p + "[" + ds + "]" + q` whose prefix `p` holds no "[" has its
      first citation right after `p`, with digits `ds`. */
  lemma FirstCitationAfter(p: string, ds: string, q: string)
    requires Free(p, '[') && ds != [] && AllDigits(ds)
    ensures var seg := p + "[" + ds + "]" + q;
      FirstCitationFrom(seg, 0) == Some(|p|) && CitationDigits(seg, |p|) == ds
  {
    var seg := p + "[" + ds + "]" + q;
    var tail := seg[|p| + 1..];
    assert tail == ds + "]" + q;
    assert tail[..|ds|] == ds;
    LeadingDigitsExact(tail, |ds|);
    assert CitationAt(seg, |p|);
    forall j | 0 <= j < |p| ensures !CitationAt(seg, j) {
      assert seg[j] == p[j];
    }
    FirstCitationLeftmost(seg, 0);
    assert seg[|p| + 1..|p| + 1 + |ds|] == ds;
  }

  /** Text holding none of the characters still to be replaced passes the
      rewrite unchanged. */
  lemma {:induction false} SubstitutePlain(p: string, rest: string, link: string, open: bool, close: bool)
    requires (open ==> Free(p, '[')) && (close ==> Free(p, ']'))
    ensures Substitute(p + rest, link, open, close) == p + Substitute(rest, link, open, close)
  {
    if p == [] {
      assert p + rest == rest;
    } else if open || close {
      assert (p + rest)[0] == p[0] && (p + rest)[1..] == p[1..] + rest;
      SubstitutePlain(p[1..], rest, link, open, close);
      assert [p[0]] + (p[1..] + Substitute(rest, link, open, close)) == p + Substitute(rest, link, open, close);
    }
  }

  /** A buffer that starts with its citation is rewritten into the link form. */
  lemma RewriteFromBracket(ds: string, q: string, link: string)
    requires AllDigits(ds)
    ensures Rewrite("[" + ds + "]" + q, link) == "[[" + ds + "]](" + link + ")" + q
  {
    var s := "[" + ds + "]" + q;
    assert s[0] == '[' && s[1..] == ds + ("]" + q);
    SubstitutePlain(ds, "]" + q, link, false, true);
    var t := "]" + q;
    assert t[0] == ']' && t[1..] == q;
    assert Substitute(t, link, false, true) == "]](" + link + ")" + q;
  }

  /** The two substitutions of the source on such a buffer, when `p` holds no
      bracket at all, produce the link form of the citation. */
  lemma RewriteCitation(p: string, ds: string, q: string, link: string)
    requires Free(p, '[') && Free(p, ']') && AllDigits(ds)
    ensures Rewrite(p + "[" + ds + "]" + q, link) == p + "[[" + ds + "]](" + link + ")" + q
  {
    assert p + "[" + ds + "]" + q == p + ("[" + ds + "]" + q);
    SubstitutePlain(p, "[" + ds + "]" + q, link, true, true);
    RewriteFromBracket(ds, q, link);
  }

  /** The corrected substitution on the same buffer needs only that `p` holds
      no "[". */
  lemma RewriteAtCitation(p: string, ds: string, q: string, link: string)
    requires AllDigits(ds)
    ensures var seg := p + "[" + ds + "]" + q;
      RewriteAt(seg, |p|, link) == p + "[[" + ds + "]](" + link + ")" + q
  {
    var seg := p + "[" + ds + "]" + q;
    assert seg[..|p|] == p && seg[|p|..] == "[" + ds + "]" + q;
    RewriteFromBracket(ds, q, link);
  }

  // ---------------------------------------------------------------------
  // One step of the filter on a buffered citation

  /** A citation `[n]` whose number is looked up and whose link is truthy is
      yielded in the link form `[[n]](link)` (then flushed as usual). The
      source needs the prefix free of both brackets; the corrected rules
      only need it free of "[". */
  lemma BufferedCitationRewritten(p: string, ds: string, q: string, links: seq<Option<string>>, rules: Rules)
    requires Free(p, '[') && (rules.rewriteAtMatch || Free(p, ']'))
    requires ds != [] && AllDigits(ds)
    requires 1 <= Decimal(ds) <= |links| && Decimal(ds) <= rules.maxCitationNum
    requires Truthy(links[Decimal(ds) - 1])
    ensures Resolve(p + "[" + ds + "]" + q, links, rules)
         == Flush(p + "[[" + ds + "]](" + links[Decimal(ds) - 1].value + ")" + q)
  {
    var seg := p + "[" + ds + "]" + q;
    var link := links[Decimal(ds) - 1].value;
    FirstCitationAfter(p, ds, q);
    var rewritten := Rewritten(seg, |p|, link, rules);
    ResolveLinked(seg, |p|, ds, links, rules);
    var target := p + "[[" + ds + "]](" + link + ")" + q;
    if rules.rewriteAtMatch {
      RewriteAtCitation(p, ds, q, link);
    } else {
      RewriteCitation(p, ds, q, link);
    }
    assert rewritten == target;
  }

  lemma ResolveLinked(seg: string, i: nat, ds: string, links: seq<Option<string>>, rules: Rules)
    requires FirstCitationFrom(seg, 0) == Some(i) && CitationDigits(seg, i) == ds
    requires 1 <= Decimal(ds) <= |links| && Decimal(ds) <= rules.maxCitationNum && Truthy(links[Decimal(ds) - 1])
    ensures var link := links[Decimal(ds) - 1].value;
      Resolve(seg, links, rules) == Flush(Rewritten(seg, i, link, rules))
  {
  }

  /** A citation whose number is 0 or above the largest number looked up, or
      whose link is falsy, is yielded literally. */
  lemma BufferedCitationLiteral(p: string, ds: string, q: string, links: seq<Option<string>>, rules: Rules)
    requires Free(p, '[') && ds != [] && AllDigits(ds)
    requires Decimal(ds) == 0 || Decimal(ds) > rules.maxCitationNum
             || (1 <= Decimal(ds) <= |links| && !Truthy(links[Decimal(ds) - 1]))
    ensures Resolve(p + "[" + ds + "]" + q, links, rules) == Flush(p + "[" + ds + "]" + q)
  {
    var seg := p + "[" + ds + "]" + q;
    FirstCitationAfter(p, ds, q);
    ResolveLiteral(seg, |p|, ds, links, rules);
  }

  lemma ResolveLiteral(seg: string, i: nat, ds: string, links: seq<Option<string>>, rules: Rules)
    requires FirstCitationFrom(seg, 0) == Some(i) && CitationDigits(seg, i) == ds
    requires Decimal(ds) == 0 || Decimal(ds) > rules.maxCitationNum
             || (1 <= Decimal(ds) <= |links| && !Truthy(links[Decimal(ds) - 1]))
    ensures Resolve(seg, links, rules) == Flush(seg)
  {
  }

  /** A citation numbered above len(links) but still looked up indexes past
      the links: the step raises and yields nothing. */
  lemma BufferedCitationRaises(p: string, ds: string, q: string, links: seq<Option<string>>, rules: Rules)
    requires Free(p, '[') && ds != [] && AllDigits(ds)
    requires |links| < Decimal(ds) <= rules.maxCitationNum
    ensures var o := Resolve(p + "[" + ds + "]" + q, links, rules);
      o.failed && o.emitted == []
  {
    FirstCitationAfter(p, ds, q);
    ResolveRaises(p + "[" + ds + "]" + q, |p|, ds, links, rules);
  }

  lemma ResolveRaises(seg: string, i: nat, ds: string, links: seq<Option<string>>, rules: Rules)
    requires FirstCitationFrom(seg, 0) == Some(i) && CitationDigits(seg, i) == ds
    requires |links| < Decimal(ds) <= rules.maxCitationNum
    ensures Resolve(seg, links, rules) == StepOut(Cite(seg, false), [], true)
  {
  }

  /** With no complete citation in the buffer, a buffer ending in "[" and
      digits (the regex `(\[\d*$)`) is held back: nothing is yielded and the
      buffer is kept; any other buffer is yielded. */
  lemma PartialCitationHeld(seg: string, links: seq<Option<string>>, rules: Rules)
    requires FirstCitationFrom(seg, 0).None?
    ensures PossibleCitationRef(seg) ==> Resolve(seg, links, rules) == StepOut(Cite(seg, false), [], false)
    ensures !PossibleCitationRef(seg) ==> Resolve(seg, links, rules) == Flush(seg)
  {
    PossibleCitationMatchesPattern(seg);
  }

  // ---------------------------------------------------------------------
  // The withheld bracket

  /** The text the state still owes the output: the withheld "[" and the
      buffer. */
  function Pending(st: Cite): string {
    (if st.prependBracket then "[" else "") + st.segment
  }

  /** In every state the filter reaches, a withheld "[" comes with an empty
      buffer. */
  predicate Reachable(st: Cite) {
    st.prependBracket ==> st.segment == ""
  }

  lemma FlushReachable(seg: string)
    ensures Reachable(Flush(seg).state)
    ensures Concat(Flush(seg).emitted) + Pending(Flush(seg).state) == seg
  {
    FlushCases(seg);
    if seg != "" && seg[|seg| - 1] == '[' {
      assert seg[..|seg| - 1] + "[" == seg;
    }
  }

  /** Every step that does not raise leads to a reachable state, whatever
      state it starts from. */
  lemma StepReachable(st: Cite, token: string, links: seq<Option<string>>, rules: Rules)
    ensures var o := CitationStep(st, token, links, rules);
      !o.failed ==> Reachable(o.state)
  {
  }

  /** In a reachable state `curr_segment += "[" + curr_segment` only puts the
      withheld "[" in front of the token. */
  lemma BufferAfterWithheldBracket(st: Cite, token: string)
    requires Reachable(st)
    ensures Buffer(st, token) == Pending(st) + token
  {
  }

  /** In a reachable state the end of the source yields the buffer verbatim
      and never the withheld "[": the `"[" + curr_segment` branch is dead. The
      corrected end yields all the pending text. */
  lemma EndOfStream(st: Cite)
    requires Reachable(st)
    ensures FinishPieces(st, false) == if st.segment == "" then [] else [st.segment]
    ensures Concat(FinishPieces(st, true)) == Pending(st)
  {
  }

  // ---------------------------------------------------------------------
  // Text conservation when nothing is rewritten

  /** No link is truthy, so nothing is ever rewritten. */
  predicate NoTruthyLink(links: seq<Option<string>>) {
    forall i :: 0 <= i < |links| ==> !Truthy(links[i])
  }

  /** A step that rewrites nothing and does not raise yields exactly the
      text it took in, less what it keeps pending. */
  lemma StepConservesText(st: Cite, token: string, links: seq<Option<string>>, rules: Rules)
    requires Reachable(st) && NoTruthyLink(links)
    ensures var o := CitationStep(st, token, links, rules);
      !o.failed ==> Concat(o.emitted) + Pending(o.state) == Pending(st) + token
  {
    var seg := Buffer(st, token);
    var o := Resolve(seg, links, rules);
    if FirstCitationFrom(seg, 0).None? && PossibleCitation(seg) {
      assert o == StepOut(Cite(seg, false), [], false);
    } else if !o.failed {
      assert o == Flush(seg);
      FlushReachable(seg);
    }
  }

  /** Over the rest of the stream, with nothing rewritten and nothing raised,
      the corrected end yields exactly the pending text and the tokens; the
      source's end may lose one withheld "[". */
  lemma {:induction false} RunConservesText(st: Cite, tokens: seq<string>, links: seq<Option<string>>, rules: Rules)
    requires Reachable(st) && NoTruthyLink(links)
    ensures var r := RunFrom(st, tokens, links, rules);
      !r.failed ==>
        if rules.flushHeldBracket then Concat(r.pieces) == Pending(st) + Concat(tokens)
        else Concat(r.pieces) == Pending(st) + Concat(tokens) || Concat(r.pieces) + "[" == Pending(st) + Concat(tokens)
    decreases |tokens|
  {
    if tokens == [] {
      EndOfStream(st);
    } else {
      RunFromStep(st, tokens, links, rules);
      var o := CitationStep(st, tokens[0], links, rules);
      if !o.failed {
        StepReachable(st, tokens[0], links, rules);
        StepConservesText(st, tokens[0], links, rules);
        RunConservesText(o.state, tokens[1..], links, rules);
        var rest := RunFrom(o.state, tokens[1..], links, rules);
        ConcatAppend(o.emitted, rest.pieces);
        var e, t, pend, rp := Concat(o.emitted), Concat(tokens[1..]), Pending(o.state), Concat(rest.pieces);
        var ps, t0 := Pending(st), tokens[0];
        assert Concat(tokens) == t0 + t;
        assert e + pend == ps + t0;
        AppendAssoc(e, pend, t);
        AppendAssoc(ps, t0, t);
        if !rest.failed {
          if rules.flushHeldBracket || rp == pend + t {
            assert e + rp == ps + (t0 + t);
          } else {
            assert rp + "[" == pend + t;
            AppendAssoc(e, rp, "[");
            assert e + rp + "[" == ps + (t0 + t);
          }
        }
      }
    }
  }

  /** The source, with no truthy link: the yielded text is the input text,
      save possibly a final withheld "[". */
  lemma CitationsConserveText(tokens: seq<string>, links: seq<Option<string>>)
    requires NoTruthyLink(links)
    ensures var r := ExtractCitations(tokens, links);
      !r.failed ==> Concat(r.pieces) == Concat(tokens) || Concat(r.pieces) + "[" == Concat(tokens)
  {
    if links != [] {
      RunConservesText(Cite("", false), tokens, links, AsWritten(links));
    }
  }

  /** The corrected filter, with no truthy link, yields exactly the input
      text. */
  lemma CorrectedCitationsConserveText(tokens: seq<string>, links: seq<Option<string>>)
    requires NoTruthyLink(links)
    ensures var r := ExtractCitationsCorrected(tokens, links);
      !r.failed && Concat(r.pieces) == Concat(tokens)
  {
    if links != [] {
      CorrectedRunNeverFails(Cite("", false), tokens, links, Corrected(links));
      RunConservesText(Cite("", false), tokens, links, Corrected(links));
    }
  }

  // ---------------------------------------------------------------------
  // Failure

  /** A step of the source raises exactly when the buffer's first citation is
      numbered len(links) + 1. */
  lemma StepRaisesAtBound(st: Cite, token: string, links: seq<Option<string>>)
    ensures var seg := Buffer(st, token);
      CitationStep(st, token, links, AsWritten(links)).failed
      <==> FirstCitationFrom(seg, 0).Some?
           && Decimal(CitationDigits(seg, FirstCitationFrom(seg, 0).value)) == |links| + 1
  {
  }

  lemma {:induction false} CorrectedRunNeverFails(st: Cite, tokens: seq<string>, links: seq<Option<string>>, rules: Rules)
    requires rules.maxCitationNum <= |links|
    ensures !RunFrom(st, tokens, links, rules).failed
    decreases |tokens|
  {
    if tokens != [] {
      RunFromStep(st, tokens, links, rules);
      var o := CitationStep(st, tokens[0], links, rules);
      CorrectedRunNeverFails(o.state, tokens[1..], links, rules);
    }
  }

  /** The corrected filter never raises. */
  lemma CorrectedCitationsNeverFail(tokens: seq<string>, links: seq<Option<string>>)
    ensures !ExtractCitationsCorrected(tokens, links).failed
  {
    if links != [] {
      CorrectedRunNeverFails(Cite("", false), tokens, links, Corrected(links));
    }
  }

  // ---------------------------------------------------------------------
  // Token splittings

  /** The text split into one-character tokens. */
  function Singles(text: string): (ts: seq<string>)
    ensures |ts| == |text|
  {
    if text == [] then [] else [[text[0]]] + Singles(text[1..])
  }

  lemma {:induction false} SinglesAppend(a: string, b: string)
    ensures Singles(a + b) == Singles(a) + Singles(b)
  {
    if a != [] {
      assert (a + b)[0] == a[0];
      assert (a + b)[1..] == a[1..] + b;
      SinglesAppend(a[1..], b);
    } else {
      assert a + b == b;
    }
  }

  lemma {:induction false} ConcatSingles(text: string)
    ensures Concat(Singles(text)) == text
  {
    if text != [] {
      ConcatSingles(text[1..]);
    }
  }

  lemma PlainCharStep(c: char, links: seq<Option<string>>, rules: Rules)
    requires c != '['
    ensures CitationStep(Cite("", false), [c], links, rules) == StepOut(Cite("", false), [[c]], false)
  {
    assert Buffer(Cite("", false), [c]) == [c];
    assert !CitationAt([c], 0);
    assert FirstCitationFrom([c], 0).None?;
    assert TrailingDigits([c]) <= 1;
    assert !PossibleCitation([c]);
  }

  lemma PlainCharHead(c: char, tokens: seq<string>, links: seq<Option<string>>, rules: Rules)
    requires c != '['
    ensures RunFrom(Cite("", false), [[c]] + tokens, links, rules)
         == Continue([[c]], RunFrom(Cite("", false), tokens, links, rules))
  {
    var all := [[c]] + tokens;
    assert all[0] == [c] && all[1..] == tokens;
    RunFromStep(Cite("", false), all, links, rules);
    PlainCharStep(c, links, rules);
  }

  /** Characters other than "[" arriving one per token are yielded one by
      one. */
  lemma {:induction false} PlainCharsPass(text: string, rest: seq<string>, links: seq<Option<string>>, rules: Rules)
    requires Free(text, '[')
    ensures RunFrom(Cite("", false), Singles(text) + rest, links, rules)
         == Continue(Singles(text), RunFrom(Cite("", false), rest, links, rules))
  {
    var init := Cite("", false);
    var r := RunFrom(init, rest, links, rules);
    if text != [] {
      var more := Singles(text[1..]);
      assert Singles(text) + rest == [[text[0]]] + (more + rest);
      PlainCharsPass(text[1..], rest, links, rules);
      PlainCharHead(text[0], more + rest, links, rules);
      AppendAssoc([[text[0]]], more, r.pieces);
    } else {
      assert Singles(text) + rest == rest;
      assert [] + r.pieces == r.pieces;
    }
  }

  lemma OpenBracketStep(links: seq<Option<string>>, rules: Rules)
    ensures CitationStep(Cite("", false), "[", links, rules) == StepOut(Cite("[", false), [], false)
  {
    assert Buffer(Cite("", false), "[") == "[";
    assert !CitationAt("[", 0);
    assert FirstCitationFrom("[", 0).None?;
    assert PossibleCitation("[");
  }

  lemma DigitStep(d: char, links: seq<Option<string>>, rules: Rules)
    requires IsDigit(d)
    ensures CitationStep(Cite("[", false), [d], links, rules) == StepOut(Cite("[" + [d], false), [], false)
  {
    var open := "[" + [d];
    assert Buffer(Cite("[", false), [d]) == open;
    assert !CitationAt(open, 0) && !CitationAt(open, 1);
    assert FirstCitationFrom(open, 0).None?;
    assert AllDigits(open[1..]);
    OpenTailRef(open);
    assert PossibleCitation(open);
  }

  lemma CloseStep(d: char, links: seq<Option<string>>, rules: Rules)
    requires IsDigit(d)
    requires 1 <= Decimal([d]) <= |links| && Decimal([d]) <= rules.maxCitationNum
    requires Truthy(links[Decimal([d]) - 1])
    ensures CitationStep(Cite("[" + [d], false), "]", links, rules)
         == StepOut(Cite("", false), ["[[" + [d] + "]](" + links[Decimal([d]) - 1].value + ")"], false)
  {
    var link := links[Decimal([d]) - 1].value;
    assert Buffer(Cite("[" + [d], false), "]") == "" + "[" + [d] + "]" + "";
    BufferedCitationRewritten("", [d], "", links, rules);
    var linked := "[[" + [d] + "]](" + link + ")";
    assert "" + "[[" + [d] + "]](" + link + ")" + "" == linked;
    assert linked[|linked| - 1] == ')';
    FlushCases(linked);
  }

  /** A one-digit citation arriving as the tokens "[", digit, "]" is held
      until it closes, then yielded in link form. */
  lemma OneDigitCitationPasses(d: char, rest: seq<string>, links: seq<Option<string>>, rules: Rules)
    requires IsDigit(d)
    requires 1 <= Decimal([d]) <= |links| && Decimal([d]) <= rules.maxCitationNum
    requires Truthy(links[Decimal([d]) - 1])
    ensures RunFrom(Cite("", false), ["[", [d], "]"] + rest, links, rules)
         == Continue(["[[" + [d] + "]](" + links[Decimal([d]) - 1].value + ")"], RunFrom(Cite("", false), rest, links, rules))
  {
    var tokens := ["[", [d], "]"] + rest;
    assert tokens[1..] == [[d], "]"] + rest && tokens[1..][1..] == ["]"] + rest;
    RunFromStep(Cite("", false), tokens, links, rules);
    OpenBracketStep(links, rules);
    RunFromStep(Cite("[", false), tokens[1..], links, rules);
    DigitStep(d, links, rules);
    HeldCitationCloses(d, rest, links, rules);
    var r := RunFrom(Cite("[" + [d], false), ["]"] + rest, links, rules);
    assert [] + ([] + r.pieces) == r.pieces;
  }

  /** The held "[" and digit, then the closing "]": the link form is yielded. */
  lemma HeldCitationCloses(d: char, rest: seq<string>, links: seq<Option<string>>, rules: Rules)
    requires IsDigit(d)
    requires 1 <= Decimal([d]) <= |links| && Decimal([d]) <= rules.maxCitationNum
    requires Truthy(links[Decimal([d]) - 1])
    ensures RunFrom(Cite("[" + [d], false), ["]"] + rest, links, rules)
         == Continue(["[[" + [d] + "]](" + links[Decimal([d]) - 1].value + ")"], RunFrom(Cite("", false), rest, links, rules))
  {
    var tokens := ["]"] + rest;
    assert tokens[0] == "]" && tokens[1..] == rest;
    RunFromStep(Cite("[" + [d], false), tokens, links, rules);
    CloseStep(d, links, rules);
  }

  /** Plain characters, then a one-digit citation, one character per token. */
  lemma SegmentPass(a: string, d: char, rest: seq<string>, links: seq<Option<string>>, rules: Rules)
    requires Free(a, '[') && IsDigit(d)
    requires 1 <= Decimal([d]) <= |links| && Decimal([d]) <= rules.maxCitationNum && Truthy(links[Decimal([d]) - 1])
    ensures RunFrom(Cite("", false), Singles(a) + (["[", [d], "]"] + rest), links, rules)
         == Continue(Singles(a) + ["[[" + [d] + "]](" + links[Decimal([d]) - 1].value + ")"], RunFrom(Cite("", false), rest, links, rules))
  {
    var init := Cite("", false);
    var l := "[[" + [d] + "]](" + links[Decimal([d]) - 1].value + ")";
    var r := RunFrom(init, rest, links, rules);
    assert RunFrom(init, Singles(a) + (["[", [d], "]"] + rest), links, rules)
        == Continue(Singles(a), RunFrom(init, ["[", [d], "]"] + rest, links, rules)) by {
      PlainCharsPass(a, ["[", [d], "]"] + rest, links, rules);
    }
    assert RunFrom(init, ["[", [d], "]"] + rest, links, rules) == Continue([l], r) by {
      OneDigitCitationPasses(d, rest, links, rules);
    }
    AppendAssoc(Singles(a), [l], r.pieces);
  }

  /** A text made of plain runs each followed by a one-digit citation,
      then a final plain run, cut into one-character tokens. */
  function CitedTokens(segs: seq<(string, char)>, last: string): seq<string>
  {
    if segs == [] then Singles(last)
    else Singles(segs[0].0) + (["[", [segs[0].1], "]"] + CitedTokens(segs[1..], last))
  }

  /** Every citation of the segments has a number that selects a truthy link. */
  predicate CitationsLinked(segs: seq<(string, char)>, last: string, links: seq<Option<string>>, rules: Rules)
  {
    Free(last, '[') &&
    forall k :: 0 <= k < |segs| ==>
      Free(segs[k].0, '[') && IsDigit(segs[k].1) &&
      1 <= Decimal([segs[k].1]) <= |links| && Decimal([segs[k].1]) <= rules.maxCitationNum &&
      Truthy(links[Decimal([segs[k].1]) - 1])
  }

  /** The link form `[[d]](link)` of a one-digit citation whose number
      selects a link; the citation itself otherwise. */
  function LinkForm(d: char, links: seq<Option<string>>): string {
    var n := Decimal([d]);
    if 1 <= n <= |links| && links[n - 1].Some? then "[[" + [d] + "]](" + links[n - 1].value + ")"
    else "[" + [d] + "]"
  }

  /** The fragments the filter yields for `CitedTokens`: plain characters
      unchanged, and each citation in its link form. */
  function CitedPieces(segs: seq<(string, char)>, last: string, links: seq<Option<string>>): seq<string>
  {
    if segs == [] then Singles(last)
    else Singles(segs[0].0) + ([LinkForm(segs[0].1, links)] + CitedPieces(segs[1..], last, links))
  }

  /** The tail of linked segments is linked. */
  lemma CitationsLinkedTail(segs: seq<(string, char)>, last: string, links: seq<Option<string>>, rules: Rules)
    requires segs != [] && CitationsLinked(segs, last, links, rules)
    ensures CitationsLinked(segs[1..], last, links, rules)
  {
    forall k | 0 <= k < |segs[1..]| ensures segs[1..][k] == segs[k + 1] { }
  }

  lemma CitedTokensUnfold(segs: seq<(string, char)>, last: string)
    requires segs != []
    ensures CitedTokens(segs, last) == Singles(segs[0].0) + (["[", [segs[0].1], "]"] + CitedTokens(segs[1..], last))
  {
  }

  /** One plain run and its citation, then the rest as the induction gives it. */
  lemma CitedStep(segs: seq<(string, char)>, last: string, links: seq<Option<string>>, rules: Rules)
    requires segs != [] && CitationsLinked(segs, last, links, rules) && CitationsLinked(segs[1..], last, links, rules)
    requires RunFrom(Cite("", false), CitedTokens(segs[1..], last), links, rules)
          == CitationStream(CitedPieces(segs[1..], last, links), false)
    ensures RunFrom(Cite("", false), CitedTokens(segs, last), links, rules)
         == CitationStream(CitedPieces(segs, last, links), false)
  {
    var init := Cite("", false);
    var a, d, tail := segs[0].0, segs[0].1, segs[1..];
    assert 1 <= Decimal([d]) <= |links| && Decimal([d]) <= rules.maxCitationNum
      && Truthy(links[Decimal([d]) - 1]) && Free(a, '[') && IsDigit(d) by {
      assert segs[0] == (a, d);
    }
    var l := "[[" + [d] + "]](" + links[Decimal([d]) - 1].value + ")";
    var rest := RunFrom(init, CitedTokens(tail, last), links, rules);
    assert RunFrom(init, CitedTokens(segs, last), links, rules) == Continue(Singles(a) + [l], rest) by {
      CitedTokensUnfold(segs, last);
      SegmentPass(a, d, CitedTokens(tail, last), links, rules);
    }
    assert LinkForm(d, links) == l;
    assert CitedPieces(segs, last, links) == Singles(a) + ([l] + CitedPieces(tail, last, links));
    ContinueLinked(Singles(a), l, CitedPieces(tail, last, links), rest);
  }

  /** Continuing a run after a plain run and a link. */
  lemma ContinueLinked(plain: seq<string>, l: string, after: seq<string>, rest: CitationStream)
    requires rest == CitationStream(after, false)
    ensures Continue(plain + [l], rest) == CitationStream(plain + ([l] + after), false)
  {
    AppendAssoc(plain, [l], after);
  }

  /** With one-character tokens every citation of such a text is rewritten
      into link form and nothing fails. */
  lemma {:induction false} CharTokensRewriteEveryCitation(segs: seq<(string, char)>, last: string, links: seq<Option<string>>, rules: Rules)
    requires CitationsLinked(segs, last, links, rules)
    ensures RunFrom(Cite("", false), CitedTokens(segs, last), links, rules)
         == CitationStream(CitedPieces(segs, last, links), false)
  {
    if segs == [] {
      assert Singles(last) + [] == Singles(last);
      PlainCharsPass(last, [], links, rules);
      assert RunFrom(Cite("", false), [], links, rules) == CitationStream([], false);
    } else {
      CitationsLinkedTail(segs, last, links, rules);
      CharTokensRewriteEveryCitation(segs[1..], last, links, rules);
      CitedStep(segs, last, links, rules);
    }
  }

  lemma ExampleTokens()
    ensures Singles("See [1] and [2].") == CitedTokens([("See ", '1'), (" and ", '2')], ".")
  {
    var rest := " and " + ("[" + (['2'] + ("]" + ".")));
    assert "See [1] and [2]." == "See " + ("[" + (['1'] + ("]" + rest)));
    SinglesCitation("See ", '1', rest);
    SinglesCitation(" and ", '2', ".");
    ExampleCited();
  }

  /** Cutting a citation `[d]` into one-character tokens. */
  lemma SinglesCitation(a: string, d: char, rest: string)
    ensures Singles(a + ("[" + ([d] + ("]" + rest)))) == Singles(a) + (["[", [d], "]"] + Singles(rest))
  {
    var x := [d] + ("]" + rest);
    SinglesAppend(a, "[" + x);
    assert ("[" + x)[1..] == x;
    assert x[1..] == "]" + rest;
    assert ("]" + rest)[1..] == rest;
    assert Singles("]" + rest) == ["]"] + Singles(rest);
    assert Singles(x) == [[d]] + (["]"] + Singles(rest));
    assert Singles("[" + x) == ["["] + ([[d]] + (["]"] + Singles(rest)));
  }

  lemma ExampleCited()
    ensures CitedTokens([("See ", '1'), (" and ", '2')], ".")
         == Singles("See ") + (["[", "1", "]"] + (Singles(" and ") + (["[", "2", "]"] + Singles("."))))
  {
    var segs := [("See ", '1'), (" and ", '2')];
    assert segs[1..][1..] == [];
    assert CitedTokens(segs[1..], ".") == Singles(" and ") + (["[", "2", "]"] + Singles("."));
  }

  lemma CitedPiecesCons(a: string, d: char, segs: seq<(string, char)>, last: string, links: seq<Option<string>>)
    ensures CitedPieces([(a, d)] + segs, last, links) == Singles(a) + ([LinkForm(d, links)] + CitedPieces(segs, last, links))
  {
    assert ([(a, d)] + segs)[1..] == segs;
    assert ([(a, d)] + segs)[0] == (a, d);
  }

  lemma ExampleLinked(u1: string, u2: string, links: seq<Option<string>>, rules: Rules)
    requires u1 != "" && u2 != "" && links == [Some(u1), Some(u2)] && rules.maxCitationNum >= 2
    ensures CitationsLinked([("See ", '1'), (" and ", '2')], ".", links, rules)
  {
    assert Decimal("1") == 1 && Decimal("2") == 2;
  }

  lemma ExamplePieces(u1: string, u2: string, links: seq<Option<string>>)
    requires links == [Some(u1), Some(u2)]
    ensures CitedPieces([("See ", '1'), (" and ", '2')], ".", links)
         == Singles("See ") + (["[[1]](" + u1 + ")"] + (Singles(" and ") + (["[[2]](" + u2 + ")"] + Singles("."))))
  {
    assert Decimal("1") == 1 && Decimal("2") == 2;
    assert [("See ", '1'), (" and ", '2')] == [("See ", '1')] + [(" and ", '2')];
    CitedPiecesCons("See ", '1', [(" and ", '2')], ".", links);
    assert [(" and ", '2')] == [(" and ", '2')] + [];
    CitedPiecesCons(" and ", '2', [], ".", links);
    assert LinkForm('1', links) == "[[" + "1" + "]](" + u1 + ")" == "[[1]](" + u1 + ")";
    assert LinkForm('2', links) == "[[" + "2" + "]](" + u2 + ")" == "[[2]](" + u2 + ")";
    assert CitedPieces([], ".", links) == Singles(".");
  }

  lemma ConcatSinglesThen(a: string, rest: seq<string>)
    ensures Concat(Singles(a) + rest) == a + Concat(rest)
  {
    ConcatAppend(Singles(a), rest);
    ConcatSingles(a);
  }

  lemma ConcatOneThen(l: string, rest: seq<string>)
    ensures Concat([l] + rest) == l + Concat(rest)
  {
    assert ([l] + rest)[1..] == rest;
  }

  lemma ConcatCited(a: string, l1: string, b: string, l2: string, c: string)
    ensures Concat(Singles(a) + ([l1] + (Singles(b) + ([l2] + Singles(c))))) == a + (l1 + (b + (l2 + c)))
  {
    var t2 := [l2] + Singles(c);
    var t1 := Singles(b) + t2;
    var t0 := [l1] + t1;
    assert Concat(t2) == l2 + c by {
      ConcatOneThen(l2, Singles(c));
      ConcatSingles(c);
    }
    assert Concat(t1) == b + (l2 + c) by {
      ConcatSinglesThen(b, t2);
    }
    assert Concat(t0) == l1 + (b + (l2 + c)) by {
      ConcatOneThen(l1, t1);
    }
    ConcatSinglesThen(a, t0);
  }

  lemma ExampleText(u1: string, u2: string)
    ensures "See " + ("[[1]](" + u1 + ")" + (" and " + ("[[2]](" + u2 + ")" + "."))) == "See [[1]](" + u1 + ") and [[2]](" + u2 + ")."
  {
  }

  /** With one-character tokens both citations of "See [1] and [2]." are
      rewritten. */
  lemma CharTokensExample(u1: string, u2: string, links: seq<Option<string>>)
    requires u1 != "" && u2 != "" && links == [Some(u1), Some(u2)]
    ensures var r := ExtractCitations(Singles("See [1] and [2]."), links);
      !r.failed && Concat(r.pieces) == "See [[1]](" + u1 + ") and [[2]](" + u2 + ")."
  {
    var segs := [("See ", '1'), (" and ", '2')];
    var l1, l2 := "[[1]](" + u1 + ")", "[[2]](" + u2 + ")";
    ExampleTokens();
    ExampleLinked(u1, u2, links, AsWritten(links));
    ExamplePieces(u1, u2, links);
    CharTokensRewriteEveryCitation(segs, ".", links, AsWritten(links));
    ConcatCited("See ", l1, " and ", l2, ".");
    ExampleText(u1, u2);
  }

  /** The filter over a single token, from the initial state. */
  lemma SingleTokenRun(token: string, links: seq<Option<string>>, rules: Rules)
    ensures var o := Resolve(token, links, rules);
      RunFrom(Cite("", false), [token], links, rules)
      == if o.failed then CitationStream(o.emitted, true)
         else CitationStream(o.emitted + FinishPieces(o.state, rules.flushHeldBracket), false)
  {
    RunFromStep(Cite("", false), [token], links, rules);
    assert Buffer(Cite("", false), token) == token;
    assert [token][1..] == [];
  }

  /** A single token that the filter yields whole, as `out`. */
  lemma SingleTokenYields(token: string, out: string, links: seq<Option<string>>, rules: Rules)
    requires Resolve(token, links, rules) == StepOut(Cite("", false), [out], false)
    ensures RunFrom(Cite("", false), [token], links, rules) == CitationStream([out], false)
  {
    SingleTokenRun(token, links, rules);
  }

  /** A whole text given as one token has only its first citation
      rewritten; the rest of the text, citations included, passes
      unchanged. */
  lemma SingleTokenRewritten(p: string, ds: string, q: string, links: seq<Option<string>>, rules: Rules)
    requires Free(p, '[') && (rules.rewriteAtMatch || Free(p, ']'))
    requires ds != [] && AllDigits(ds)
    requires 1 <= Decimal(ds) <= |links| && Decimal(ds) <= rules.maxCitationNum
    requires Truthy(links[Decimal(ds) - 1])
    requires q == [] || q[|q| - 1] != '['
    ensures RunFrom(Cite("", false), [p + "[" + ds + "]" + q], links, rules)
         == CitationStream([p + "[[" + ds + "]](" + links[Decimal(ds) - 1].value + ")" + q], false)
  {
    var out := p + "[[" + ds + "]](" + links[Decimal(ds) - 1].value + ")" + q;
    assert Resolve(p + "[" + ds + "]" + q, links, rules) == Flush(out) by {
      BufferedCitationRewritten(p, ds, q, links, rules);
    }
    assert Flush(out) == StepOut(Cite("", false), [out], false) by {
      assert out[|out| - 1] != '[';
      FlushCases(out);
    }
    SingleTokenYields(p + "[" + ds + "]" + q, out, links, rules);
  }

  /** With the whole text as a single token only the buffer's first citation
      is rewritten; the second stays literal. */
  lemma WholeTokenExample(text: string, u: string, links: seq<Option<string>>)
    requires text == "[1] [2]" && u != "" && |links| == 2 && links[0] == Some(u)
    ensures ExtractCitations([text], links) == CitationStream(["[[1]](" + u + ") [2]"], false)
  {
    var q := text[3..];
    WholeTokenShape(text, q, u);
    assert Decimal("1") == 1;
    SingleTokenRewritten("", "1", q, links, AsWritten(links));
  }

  lemma WholeTokenShape(text: string, q: string, u: string)
    requires text == "[1] [2]" && q == text[3..]
    ensures q == " [2]" && q[|q| - 1] != '['
    ensures text == "" + "[" + "1" + "]" + q
    ensures "" + "[[" + "1" + "]](" + u + ")" + q == "[[1]](" + u + ") [2]"
  {
  }

  // ---------------------------------------------------------------------
  // Inputs on which the source departs from the evident intent

  /** Citation number len(links) + 1 raises IndexError in the source. */
  lemma BoundRaises(text: string, links: seq<Option<string>>)
    requires text == "[2]" && links == [Some("u")]
    ensures ExtractCitations([text], links) == CitationStream([], true)
  {
    SingleTokenRun(text, links, AsWritten(links));
    assert text == "" + "[" + "2" + "]" + "";
    assert Decimal("2") == 2;
    BufferedCitationRaises("", "2", "", links, AsWritten(links));
  }

  /** The corrected filter leaves the same citation literal. */
  lemma BoundCorrected(text: string, links: seq<Option<string>>)
    requires text == "[2]" && links == [Some("u")]
    ensures ExtractCitationsCorrected([text], links) == CitationStream([text], false)
  {
    SingleTokenRun(text, links, Corrected(links));
    assert text == "" + "[" + "2" + "]" + "";
    assert Decimal("2") == 2;
    BufferedCitationLiteral("", "2", "", links, Corrected(links));
    FlushCases(text);
  }

  /** A "[" withheld after the last token is never yielded, so the text is
      not conserved even with no link to rewrite. */
  lemma HeldBracketLost(text: string, links: seq<Option<string>>)
    requires text == "[1][" && links == [None]
    ensures ExtractCitations([text], links) == CitationStream(["[1]"], false)
  {
    SingleTokenRun(text, links, AsWritten(links));
    assert text == "" + "[" + "1" + "]" + "[";
    assert Decimal("1") == 1;
    BufferedCitationLiteral("", "1", "[", links, AsWritten(links));
    FlushCases(text);
    assert text[..3] == "[1]";
  }

  /** The corrected filter yields the withheld "[" at the end. */
  lemma HeldBracketCorrected(text: string, links: seq<Option<string>>)
    requires text == "[1][" && links == [None]
    ensures ExtractCitationsCorrected([text], links) == CitationStream(["[1]", "["], false)
  {
    SingleTokenRun(text, links, Corrected(links));
    assert text == "" + "[" + "1" + "]" + "[";
    assert Decimal("1") == 1;
    BufferedCitationLiteral("", "1", "[", links, Corrected(links));
    FlushCases(text);
    assert text[..3] == "[1]";
  }

  /** The source's two substitutions on a buffer with a "]" ahead of its
      first citation: that "]" receives the link, and the citation only
      gains a "[". */
  lemma RewriteStrayBracket(p1: string, p2: string, ds: string, q: string, link: string)
    requires Free(p1, '[') && Free(p1, ']') && Free(p2, '[')
    ensures Rewrite(p1 + "]" + p2 + "[" + ds + "]" + q, link) == p1 + "]](" + link + ")" + p2 + "[[" + ds + "]" + q
  {
    var rest3 := "[" + ds + "]" + q;
    var rest2 := p2 + rest3;
    var rest := "]" + rest2;
    var r3 := "[[" + (ds + "]" + q);
    assert Substitute(rest3, link, true, false) == r3 by {
      assert rest3[0] == '[' && rest3[1..] == ds + "]" + q;
    }
    assert Substitute(rest2, link, true, false) == p2 + r3 by {
      SubstitutePlain(p2, rest3, link, true, false);
    }
    assert Substitute(rest, link, true, true) == "]](" + link + ")" + (p2 + r3) by {
      assert rest[0] == ']' && rest[1..] == rest2;
    }
    assert Rewrite(p1 + rest, link) == p1 + ("]](" + link + ")" + (p2 + r3)) by {
      SubstitutePlain(p1, rest, link, true, true);
    }
    assert p1 + "]" + p2 + "[" + ds + "]" + q == p1 + rest;
    assert p1 + ("]](" + link + ")" + (p2 + r3)) == p1 + "]](" + link + ")" + p2 + "[[" + ds + "]" + q;
  }

  lemma FreeAppend(a: string, b: string, c: char)
    requires Free(a, c) && Free(b, c)
    ensures Free(a + b, c)
  {
    forall j | 0 <= j < |a + b| ensures (a + b)[j] != c {
      if j >= |a| {
        assert (a + b)[j] == b[j - |a|];
      }
    }
  }

  lemma ResolveStrayBracket(p1: string, p2: string, ds: string, q: string, links: seq<Option<string>>)
    requires Free(p1, '[') && Free(p1, ']') && Free(p2, '[')
    requires ds != [] && AllDigits(ds)
    requires 1 <= Decimal(ds) <= |links| && Truthy(links[Decimal(ds) - 1])
    ensures Resolve(p1 + "]" + p2 + "[" + ds + "]" + q, links, AsWritten(links))
         == Flush(p1 + "]](" + links[Decimal(ds) - 1].value + ")" + p2 + "[[" + ds + "]" + q)
  {
    var link := links[Decimal(ds) - 1].value;
    var p := p1 + "]" + p2;
    var seg := p + "[" + ds + "]" + q;
    assert Free(p, '[') by {
      FreeAppend(p1, "]", '[');
      FreeAppend(p1 + "]", p2, '[');
    }
    FirstCitationAfter(p, ds, q);
    ResolveLinked(seg, |p|, ds, links, AsWritten(links));
    RewriteStrayBracket(p1, p2, ds, q, link);
  }

  /** A "]" ahead of the citation in the same whole-token buffer receives
      the link. */
  lemma StrayBracketTakesLink(p1: string, p2: string, ds: string, q: string, links: seq<Option<string>>)
    requires Free(p1, '[') && Free(p1, ']') && Free(p2, '[')
    requires ds != [] && AllDigits(ds)
    requires 1 <= Decimal(ds) <= |links| && Truthy(links[Decimal(ds) - 1])
    requires q == [] || q[|q| - 1] != '['
    ensures ExtractCitations([p1 + "]" + p2 + "[" + ds + "]" + q], links)
         == CitationStream([p1 + "]](" + links[Decimal(ds) - 1].value + ")" + p2 + "[[" + ds + "]" + q], false)
  {
    var seg := p1 + "]" + p2 + "[" + ds + "]" + q;
    var out := p1 + "]](" + links[Decimal(ds) - 1].value + ")" + p2 + "[[" + ds + "]" + q;
    ResolveStrayBracket(p1, p2, ds, q, links);
    assert Flush(out) == StepOut(Cite("", false), [out], false) by {
      assert out[|out| - 1] != '[';
      FlushCases(out);
    }
    SingleTokenYields(seg, out, links, AsWritten(links));
  }

  lemma StrayBracketRewritten(text: string, u: string, links: seq<Option<string>>)
    requires text == "x] [1]" && u != "" && links == [Some(u)]
    ensures ExtractCitations([text], links) == CitationStream(["x]](" + u + ") [[1]"], false)
  {
    assert text == "x" + "]" + " " + "[" + "1" + "]" + "";
    assert Decimal("1") == 1;
    StrayBracketTakesLink("x", " ", "1", "", links);
    assert "x" + "]](" + u + ")" + " " + "[[" + "1" + "]" + "" == "x]](" + u + ") [[1]";
  }

  /** The corrected filter links the citation itself. */
  lemma StrayBracketCorrected(text: string, u: string, links: seq<Option<string>>)
    requires text == "x] [1]" && u != "" && links == [Some(u)]
    ensures ExtractCitationsCorrected([text], links) == CitationStream(["x] [[1]](" + u + ")"], false)
  {
    assert text == "x] " + "[" + "1" + "]" + "";
    assert Decimal("1") == 1;
    SingleTokenRewritten("x] ", "1", "", links, Corrected(links));
    assert "x] " + "[[" + "1" + "]](" + u + ")" + "" == "x] [[1]](" + u + ")";
  }
}
