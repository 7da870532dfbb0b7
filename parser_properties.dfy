/** Properties of the tool-action stream parser: what is streamed, when
    streaming starts and stops, and how the generator ends. */
module ParserProperties {
  import opened Common
  import opened ActionParser

  // ---------------------------------------------------------------------
  // The markers stay found once found

  lemma LowerAppend(a: string, b: string)
    ensures Lower(a + b) == Lower(a) + Lower(b)
  {
    assert forall i :: 0 <= i < |a + b| ==> Lower(a + b)[i] == (Lower(a) + Lower(b))[i];
  }

  lemma {:induction false} RemoveAppend(a: string, b: string, c: char)
    ensures Remove(a + b, c) == Remove(a, c) + Remove(b, c)
  {
    if a == [] {
      assert a + b == b;
    } else {
      assert (a + b)[0] == a[0] && (a + b)[1..] == a[1..] + b;
      RemoveAppend(a[1..], b, c);
    }
  }

  lemma ContainsAppend(a: string, b: string, m: string)
    requires Contains(a, m)
    ensures Contains(a + b, m)
  {
    var i :| 0 <= i <= |a| && OccursAt(a, m, i);
    assert (a + b)[i..i + |m|] == a[i..i + |m|];
    assert OccursAt(a + b, m, i);
  }

  /** Text arriving later never hides a marker already in the output. */
  lemma MarkersPersist(a: string, b: string)
    ensures FinalAnswerSeen(a) ==> FinalAnswerSeen(a + b)
    ensures ActionInputSeen(a) ==> ActionInputSeen(a + b)
  {
    LowerAppend(a, b);
    RemoveAppend(Lower(a), Lower(b), ' ');
    RemoveAppend(Remove(Lower(a), ' '), Remove(Lower(b), ' '), '_');
    if FinalAnswerSeen(a) {
      ContainsAppend(Remove(Lower(a), ' '), Remove(Lower(b), ' '), FinalAnswerMarker);
    }
    if ActionInputSeen(a) {
      ContainsAppend(Remove(Remove(Lower(a), ' '), '_'), Remove(Remove(Lower(b), ' '), '_'), ActionInputMarker);
    }
  }

  // ---------------------------------------------------------------------
  // The invariant of the loop over tokens

  /** A piece cut at the first quote holds no quote at all. */
  lemma CutPieceQuoteFree(hold: string)
    ensures !HasUnescapedQuote(hold[..FindChar(hold, '"')])
  {
  }

  predicate PiecesQuoteFree(items: seq<ParserItem>) {
    forall i :: 0 <= i < |items| ==> items[i].AnswerPiece? && !HasUnescapedQuote(items[i].piece)
  }

  /** What holds of the generator's variables after the tokens spelling
      `out`. */
  predicate Consistent(out: string, f: Fed) {
    && f.state.modelOutput == out
    && f.state.finalAnswer == FinalAnswerSeen(out)
    && (f.state.justStartStream ==>
          FinalAnswerSeen(out) && ActionInputSeen(out) && f.items != [] && f.items[0] == AnswerPiece(""))
    && (!f.state.justStartStream ==> f.items == [] && f.state.findingEnd == 0)
    && f.state.findingEnd != 1
    && (f.state.findingEnd == 0 && f.state.justStartStream ==> f.state.hold == "")
    && PiecesQuoteFree(f.items)
  }

  function After(f: Fed, token: string): Fed {
    var s := Step(f.state, token);
    Fed(s.state, f.items + s.emitted)
  }

  lemma PiecesQuoteFreeAppend(items: seq<ParserItem>, piece: string)
    requires PiecesQuoteFree(items) && !HasUnescapedQuote(piece)
    ensures PiecesQuoteFree(items + [AnswerPiece(piece)])
  {
  }

  /** The first token that completes both markers yields an empty piece:
      that token is discarded. */
  lemma StartStep(out: string, f: Fed, token: string)
    requires Consistent(out, f) && !f.state.justStartStream
    requires FinalAnswerSeen(out + token) && ActionInputSeen(out + token)
    ensures Consistent(out + token, After(f, token))
  {
    assert !HasUnescapedQuote("");
  }

  /** A token while streaming, before the closing quote. */
  lemma StreamingStep(out: string, f: Fed, token: string)
    requires Consistent(out, f) && f.state.justStartStream && f.state.findingEnd == 0
    ensures Consistent(out + token, After(f, token))
  {
    MarkersPersist(out, token);
    assert f.state.hold + token == token;
    var hold := token;
    if HasUnescapedQuote(hold) {
      CutPieceQuoteFree(hold);
      PiecesQuoteFreeAppend(f.items, hold[..FindChar(hold, '"')]);
    } else {
      PiecesQuoteFreeAppend(f.items, hold);
    }
  }

  /** A token after the closing quote. */
  lemma ClosedStep(out: string, f: Fed, token: string)
    requires Consistent(out, f) && f.state.justStartStream && f.state.findingEnd >= 2
    ensures Consistent(out + token, After(f, token))
    ensures After(f, token).items == f.items && After(f, token).state.findingEnd >= 2
  {
    MarkersPersist(out, token);
  }

  /** A token before both markers are in the output. */
  lemma WaitingStep(out: string, f: Fed, token: string)
    requires Consistent(out, f) && !f.state.justStartStream
    requires !(FinalAnswerSeen(out + token) && ActionInputSeen(out + token))
    ensures Consistent(out + token, After(f, token))
  {
    MarkersPersist(out, token);
  }

  lemma StepConsistent(out: string, f: Fed, token: string)
    requires Consistent(out, f)
    ensures Consistent(out + token, After(f, token))
  {
    if !f.state.justStartStream {
      if FinalAnswerSeen(out + token) && ActionInputSeen(out + token) {
        StartStep(out, f, token);
      } else {
        WaitingStep(out, f, token);
      }
    } else if f.state.findingEnd == 0 {
      StreamingStep(out, f, token);
    } else {
      ClosedStep(out, f, token);
    }
  }

  lemma FeedSnoc(tokens: seq<string>, token: string)
    ensures Feed(tokens + [token]) == After(Feed(tokens), token)
  {
    assert (tokens + [token])[..|tokens|] == tokens;
  }

  lemma ConcatSnoc(tokens: seq<string>, token: string)
    ensures Concat(tokens + [token]) == Concat(tokens) + token
  {
    ConcatAppend(tokens, [token]);
    assert Concat([token]) == token + Concat([]);
  }

  /** The loop invariant holds after every prefix of the tokens; in
      particular `model_output` is the concatenation of the tokens read. */
  lemma {:induction false} FeedConsistent(tokens: seq<string>)
    ensures Consistent(Concat(tokens), Feed(tokens))
    decreases |tokens|
  {
    if tokens != [] {
      var init := tokens[..|tokens| - 1];
      var last := tokens[|tokens| - 1];
      assert init + [last] == tokens;
      FeedConsistent(init);
      StepConsistent(Concat(init), Feed(init), last);
      FeedSnoc(init, last);
      ConcatSnoc(init, last);
    } else {
      assert !FinalAnswerSeen("") by {
        assert Remove(Lower(""), ' ') == "";
      }
    }
  }

  // ---------------------------------------------------------------------
  // When pieces are streamed

  /** The output so far is exactly what the tokens spell. */
  lemma ModelOutputIsConcat(tokens: seq<string>)
    ensures Feed(tokens).state.modelOutput == Concat(tokens)
  {
    FeedConsistent(tokens);
  }

  /** No piece is yielded until the output, lower-cased and stripped, holds
      both the final-answer marker and the action-input marker; the first
      piece is empty. */
  lemma NoPieceBeforeMarkers(tokens: seq<string>)
    ensures Feed(tokens).items != [] ==> FinalAnswerSeen(Concat(tokens)) && ActionInputSeen(Concat(tokens))
    ensures Feed(tokens).items != [] ==> Feed(tokens).items[0] == AnswerPiece("")
  {
    FeedConsistent(tokens);
  }

  /** Once the closing quote was found, later tokens yield nothing. */
  lemma {:induction false} NothingAfterClosingQuote(tokens: seq<string>, more: seq<string>)
    requires Feed(tokens).state.findingEnd >= 2
    ensures Feed(tokens + more).items == Feed(tokens).items
    ensures Feed(tokens + more).state.findingEnd >= 2
    decreases |more|
  {
    if more == [] {
      assert tokens + more == tokens;
    } else {
      var init := more[..|more| - 1];
      var last := more[|more| - 1];
      assert tokens + more == (tokens + init) + [last];
      NothingAfterClosingQuote(tokens, init);
      FeedConsistent(tokens + init);
      ClosedStep(Concat(tokens + init), Feed(tokens + init), last);
      FeedSnoc(tokens + init, last);
    }
  }

  /** While streaming, each token is passed on whole until one holds an
      unescaped quote; that one is passed on up to its first quote and
      closes the stream. */
  lemma StreamedToken(tokens: seq<string>, token: string)
    requires Feed(tokens).state.justStartStream && Feed(tokens).state.findingEnd == 0
    ensures var g := Feed(tokens + [token]);
      && g.items == Feed(tokens).items + [AnswerPiece(if HasUnescapedQuote(token) then token[..FindChar(token, '"')] else token)]
      && (g.state.findingEnd >= 2 <==> HasUnescapedQuote(token))
      && (g.state.findingEnd == 0 <==> !HasUnescapedQuote(token))
      && g.state.justStartStream
  {
    FeedConsistent(tokens);
    MarkersPersist(Concat(tokens), token);
    FeedSnoc(tokens, token);
    assert Feed(tokens).state.hold + token == token;
  }

  /** Every yielded piece is free of unescaped quotes. */
  lemma PiecesHaveNoUnescapedQuote(tokens: seq<string>)
    ensures forall i :: 0 <= i < |Feed(tokens).items| ==>
      Feed(tokens).items[i].AnswerPiece? && !HasUnescapedQuote(Feed(tokens).items[i].piece)
  {
    FeedConsistent(tokens);
  }

  // ---------------------------------------------------------------------
  // How the generator ends

  /** The generator either yields one decision after its pieces, carrying
      the raw output and the parsed action values, or raises exactly when
      the extraction fails or lacks one of the two keys. */
  lemma ParseStreamEnds(tokens: seq<string>, extract: string -> Option<map<string, string>>)
    ensures var run := ParseStream(tokens, extract);
      var pieces := Feed(tokens).items;
      var j := extract(Concat(tokens));
      && (run.error.None? <==> j.Some? && "action" in j.value && "action_input" in j.value)
      && (run.error == Some(NoEmbeddedJson) <==> j.None?)
      && (run.error.None? ==>
            run.items == pieces + [ChatModelOut(ModelOut(Concat(tokens), j.value["action"], j.value["action_input"]))])
      && (run.error.Some? ==> run.items == pieces)
      && (forall i :: 0 <= i < |pieces| ==> pieces[i].AnswerPiece?)
  {
    FeedConsistent(tokens);
  }

  /** A decision is yielded only as the last item: at most one, at the end. */
  lemma OneDecisionAtEnd(tokens: seq<string>, extract: string -> Option<map<string, string>>)
    ensures var run := ParseStream(tokens, extract);
      forall i :: 0 <= i < |run.items| && run.items[i].ChatModelOut? ==> i == |run.items| - 1 && run.error.None?
  {
    FeedConsistent(tokens);
  }

  /** An action other than the final answer streams nothing: the decision
      is all that is yielded. */
  lemma OtherActionYieldsOnlyDecision(tokens: seq<string>, extract: string -> Option<map<string, string>>)
    requires !FinalAnswerSeen(Concat(tokens))
    ensures var run := ParseStream(tokens, extract);
      && |run.items| == (if run.error.None? then 1 else 0)
      && forall i :: 0 <= i < |run.items| ==> run.items[i].ChatModelOut?
  {
    FeedConsistent(tokens);
  }

  // ---------------------------------------------------------------------
  // Examples

  /** The first token of a stream that completes both markers starts the
      stream with an empty piece. */
  lemma HeaderStarts(header: string)
    requires FinalAnswerSeen(header) && ActionInputSeen(header)
    ensures Feed([header]).items == [AnswerPiece("")]
    ensures Feed([header]).state.justStartStream && Feed([header]).state.findingEnd == 0
  {
    FeedConsistent([]);
    assert [] + [header] == [header];
    FeedSnoc([], header);
    assert Concat([]) + header == header;
    StartStep("", Feed([]), header);
  }

  /** Two tokens without an unescaped quote are streamed whole; a third
      starting with a quote closes the stream with an empty piece. */
  lemma StreamTwoThenClose(header: string, t1: string, t2: string, t3: string)
    requires FinalAnswerSeen(header) && ActionInputSeen(header)
    requires !HasUnescapedQuote(t1) && !HasUnescapedQuote(t2)
    requires HasUnescapedQuote(t3) && t3[..FindChar(t3, '"')] == ""
    ensures Feed([header, t1, t2, t3]).items
         == [AnswerPiece(""), AnswerPiece(t1), AnswerPiece(t2), AnswerPiece("")]
    ensures Feed([header, t1, t2, t3]).state.findingEnd >= 2
  {
    StreamTwo(header, t1, t2);
    StreamedClose([header, t1, t2], t3);
    assert [header, t1, t2] + [t3] == [header, t1, t2, t3];
  }

  lemma StreamTwo(header: string, t1: string, t2: string)
    requires FinalAnswerSeen(header) && ActionInputSeen(header)
    requires !HasUnescapedQuote(t1) && !HasUnescapedQuote(t2)
    ensures Feed([header, t1, t2]).items == [AnswerPiece(""), AnswerPiece(t1), AnswerPiece(t2)]
    ensures Feed([header, t1, t2]).state.justStartStream && Feed([header, t1, t2]).state.findingEnd == 0
  {
    HeaderStarts(header);
    StreamedWhole([header], t1);
    assert [header] + [t1] == [header, t1];
    StreamedWhole([header, t1], t2);
    assert [header, t1] + [t2] == [header, t1, t2];
  }

  lemma StreamedWhole(tokens: seq<string>, token: string)
    requires Feed(tokens).state.justStartStream && Feed(tokens).state.findingEnd == 0
    requires !HasUnescapedQuote(token)
    ensures Feed(tokens + [token]).items == Feed(tokens).items + [AnswerPiece(token)]
    ensures Feed(tokens + [token]).state.justStartStream && Feed(tokens + [token]).state.findingEnd == 0
  {
    StreamedToken(tokens, token);
  }

  lemma StreamedClose(tokens: seq<string>, token: string)
    requires Feed(tokens).state.justStartStream && Feed(tokens).state.findingEnd == 0
    requires HasUnescapedQuote(token)
    ensures Feed(tokens + [token]).items == Feed(tokens).items + [AnswerPiece(token[..FindChar(token, '"')])]
    ensures Feed(tokens + [token]).state.findingEnd >= 2
  {
    StreamedToken(tokens, token);
  }

  /** Escaped quotes inside one token do not end the stream: with the
      tokens `<header>`, `he said `, `\"hi\"` and `"}` the pieces are the
      empty one, `he said `, `\"hi\"` (escapes kept) and the empty text
      before the closing quote. */
  lemma EscapedQuotesStream(header: string, t1: string, t2: string, t3: string)
    requires FinalAnswerSeen(header) && ActionInputSeen(header)
    requires t1 == "he said " && t2 == "\\\"hi\\\"" && t3 == "\"}"
    ensures Feed([header, t1, t2, t3]).items
         == [AnswerPiece(""), AnswerPiece(t1), AnswerPiece(t2), AnswerPiece("")]
    ensures Feed([header, t1, t2, t3]).state.findingEnd >= 2
  {
    EscapedQuotesTokens(t1, t2, t3);
    StreamTwoThenClose(header, t1, t2, t3);
  }

  lemma EscapedQuotesTokens(t1: string, t2: string, t3: string)
    requires t1 == "he said " && t2 == "\\\"hi\\\"" && t3 == "\"}"
    ensures !HasUnescapedQuote(t1) && !HasUnescapedQuote(t2)
    ensures HasUnescapedQuote(t3) && t3[..FindChar(t3, '"')] == ""
  {
    assert forall i :: 0 <= i < |t2| && t2[i] == '"' ==> i > 0 && t2[i - 1] == '\\';
    assert t3[0] == '"';
  }

  /** An escaped quote whose backslash arrived in the previous token counts
      as unescaped, because the quote test sees only the current token:
      with `<header>`, `he said \` and `"hi"` the stream ends at the
      escaped quote. */
  lemma SplitEscapeEndsStream(header: string, t1: string, t2: string)
    requires FinalAnswerSeen(header) && ActionInputSeen(header)
    requires t1 == "he said \\" && t2 == "\"hi\""
    ensures Feed([header, t1, t2]).items == [AnswerPiece(""), AnswerPiece(t1), AnswerPiece("")]
    ensures Feed([header, t1, t2]).state.findingEnd >= 2
  {
    HeaderStarts(header);
    SplitEscapeTokens(t1, t2);
    var s1, s2 := [header] + [t1], [header, t1] + [t2];
    StreamedWhole([header], t1);
    assert s1 == [header, t1];
    StreamedClose(s1, t2);
    assert s2 == [header, t1, t2];
  }

  lemma SplitEscapeTokens(t1: string, t2: string)
    requires t1 == "he said \\" && t2 == "\"hi\""
    ensures !HasUnescapedQuote(t1)
    ensures HasUnescapedQuote(t2) && t2[..FindChar(t2, '"')] == ""
  {
    assert t2[0] == '"';
  }
}
