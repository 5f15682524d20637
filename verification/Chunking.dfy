/** Splitting outbound text into chunks of bounded length at spaces and newlines. */
module Chunking {
  import opened Texts

  predicate IsBreak(u: CodeUnit) {
    u == NEWLINE || u == SPACE
  }

  /** Where the first chunk of a text that is too long ends. */
  function BreakAt(s: Text, limit: nat): (b: nat)
    requires 0 < limit < |s|
    ensures 0 < b <= limit
    ensures b < limit ==> IsBreak(s[b])
    ensures forall p :: b < p < limit ==> !IsBreak(s[p])
    ensures b == limit ==> forall p :: 0 < p < limit ==> !IsBreak(s[p])
  {
    var window := s[..limit];
    var newline, space := LastIndexOf(window, NEWLINE), LastIndexOf(window, SPACE);
    var splitAt := if newline > space then newline else space;
    assert forall p :: 0 <= p < limit ==> window[p] == s[p];
    if splitAt > 0 then splitAt else limit
  }

  function Pieces(s: Text, limit: nat): seq<Text>
    requires 0 < limit
    decreases |s|
  {
    if |s| <= limit then (if s == [] then [] else [s])
    else
      var b := BreakAt(s, limit);
      [TrimEnd(s[..b])] + Pieces(TrimStart(s[b..]), limit)
  }

  function Chunks(text: Text, limit: nat): seq<Text>
    requires 0 < limit
  {
    if text == [] then [[]] else Pieces(text, limit)
  }

  // ---- the loop ----

  /** Where a round breaks the text, as `slice` reads the limit. */
  function RoundBreak(s: Text, limit: real): (b: nat)
    ensures b <= |s|
  {
    var window := s[..Clamp(Trunc(limit), |s|)];
    var newline, space := LastIndexOf(window, NEWLINE), LastIndexOf(window, SPACE);
    var splitAt := if newline > space then newline else space;
    Clamp(if splitAt > 0 then splitAt else Trunc(limit), |s|)
  }

  function AfterRound(s: Text, limit: real): Text {
    TrimStart(s[RoundBreak(s, limit)..])
  }

  /** What n rounds leave of the text. */
  function Remaining(s: Text, limit: real, n: nat): Text
    decreases n
  {
    if n == 0 then s else Remaining(AfterRound(s, limit), limit, n - 1)
  }

  /** Some number of rounds leaves no more than the limit. */
  ghost predicate Ends(text: Text, limit: real) {
    exists n :: |Remaining(text, limit, n)| as real <= limit
  }

  lemma RoundShrinks(s: Text, limit: real)
    requires limit >= 1.0 && |s| as real > limit
    ensures |AfterRound(s, limit)| < |s|
  {
  }

  lemma EndsLater(s: Text, limit: real)
    requires Ends(AfterRound(s, limit), limit)
    ensures Ends(s, limit)
  {
    var n: nat :| |Remaining(AfterRound(s, limit), limit, n)| as real <= limit;
    assert Remaining(s, limit, n + 1) == Remaining(AfterRound(s, limit), limit, n);
  }

  lemma {:induction false} EndsFrom(s: Text, limit: real)
    requires limit >= 1.0
    ensures Ends(s, limit)
    decreases |s|
  {
    if |s| as real <= limit {
      assert Remaining(s, limit, 0) == s;
    } else {
      RoundShrinks(s, limit);
      EndsFrom(AfterRound(s, limit), limit);
      EndsLater(s, limit);
    }
  }

  lemma StartBlank(s: Text)
    ensures TrimStart(s) == [] <==> Blank(s)
    ensures Blank(TrimStart(s)) <==> Blank(s)
  {
    var i := SkipSpace(s, 0);
    if i < |s| {
      assert TrimStart(s)[0] == s[i];
    }
  }

  /** Below 1 a round only trims. */
  lemma OnlyTrims(s: Text, limit: real)
    requires 0.0 <= limit < 1.0
    ensures RoundBreak(s, limit) == 0 && AfterRound(s, limit) == TrimStart(s)
    ensures Blank(AfterRound(s, limit)) <==> Blank(s)
  {
    assert s[..0] == [] && s[0..] == s;
    StartBlank(s);
  }

  lemma {:induction false} NeverEnds(s: Text, limit: real, n: nat)
    requires 0.0 <= limit < 1.0 && !Blank(s)
    ensures Remaining(s, limit, n) != []
    decreases n
  {
    if n > 0 {
      OnlyTrims(s, limit);
      NeverEnds(AfterRound(s, limit), limit, n - 1);
    }
  }

  /** The loop ends exactly for limits from 1 on, and for lower ones down to 0 when the text is
      blank. */
  lemma EndsExactly(text: Text, limit: real)
    ensures Ends(text, limit) <==> limit >= 1.0 || (limit >= 0.0 && Blank(text))
  {
    if limit >= 1.0 {
      EndsFrom(text, limit);
    } else if limit >= 0.0 {
      if Blank(text) {
        OnlyTrims(text, limit);
        StartBlank(text);
        assert Remaining(AfterRound(text, limit), limit, 0) == [];
        assert Remaining(text, limit, 1) == [];
      } else {
        forall n ensures |Remaining(text, limit, n)| as real > limit {
          NeverEnds(text, limit, n);
        }
      }
    }
  }

  /** With limit 0 a single letter is never used up. */
  lemma ZeroNeverEnds()
    ensures !Ends([0x61], 0.0)
  {
    EndsExactly([0x61], 0.0);
    assert !IsSpace([0x61 as CodeUnit][0]);
  }

  lemma PiecesStep(chunks: seq<Text>, s: Text, limit: nat)
    requires 0 < limit < |s|
    ensures var b := BreakAt(s, limit);
      chunks + Pieces(s, limit) == (chunks + [TrimEnd(s[..b])]) + Pieces(TrimStart(s[b..]), limit)
  {
  }

  lemma RoundBreaks(s: Text, limit: real)
    requires limit >= 1.0 && |s| as real > limit
    ensures limit.Floor < |s| && RoundBreak(s, limit) == BreakAt(s, limit.Floor)
  {
  }

  /** What the source returns: below 1 one empty chunk, from 1 on the chunks of the whole limit. */
  function ChunksUpTo(text: Text, limit: real): seq<Text> {
    if limit >= 1.0 then Chunks(text, limit.Floor) else [[]]
  }

  /** For all limits and texts for which the source's loop ends. */
  method ChunkTextForOutbound(text: Text, limit: real) returns (chunks: seq<Text>)
    requires limit >= 1.0 || (limit >= 0.0 && Blank(text))
    ensures chunks == ChunksUpTo(text, limit)
  {
    chunks := [];
    var remaining := text;
    while |remaining| as real > limit
      invariant limit >= 1.0 ==> chunks + Pieces(remaining, limit.Floor) == Pieces(text, limit.Floor)
      invariant limit >= 1.0 && text == [] ==> remaining == [] && chunks == []
      invariant limit < 1.0 ==> if chunks == [] then remaining == text else chunks == [[]] && remaining == [] && text != []
      decreases |remaining|
    {
      var window := remaining[..Clamp(Trunc(limit), |remaining|)];
      var newline, space := LastIndexOf(window, NEWLINE), LastIndexOf(window, SPACE);
      var splitAt := if newline > space then newline else space;
      var breakAt := Clamp(if splitAt > 0 then splitAt else Trunc(limit), |remaining|);
      assert breakAt == RoundBreak(remaining, limit);
      var chunk, rest := TrimEnd(remaining[..breakAt]), TrimStart(remaining[breakAt..]);
      if limit >= 1.0 {
        RoundBreaks(remaining, limit);
        PiecesStep(chunks, remaining, limit.Floor);
      } else {
        OnlyTrims(remaining, limit);
        StartBlank(remaining);
        assert remaining[0..] == remaining && chunk == [];
      }
      chunks, remaining := chunks + [chunk], rest;
    }
    assert limit >= 1.0 ==> Pieces(remaining, limit.Floor) == if remaining == [] then [] else [remaining];
    if |remaining| > 0 || |text| == 0 {
      chunks := chunks + [remaining];
    }
  }

  // ---- where the chunks lie in the text ----

  datatype Span = Span(lo: nat, hi: nat) {
    predicate Covers(p: nat) {
      lo <= p < hi
    }
  }

  /** Where the chunk text[at..cut] ends once trimmed. */
  ghost function ChunkEnd(text: Text, at: nat, cut: nat): (hi: nat)
    requires at <= cut <= |text|
    ensures at <= hi <= cut
  {
    at + DropSpace(text[at..cut], cut - at)
  }

  /** The spans of the chunks of text[at..]. */
  ghost function SpansFrom(text: Text, at: nat, limit: nat): (spans: seq<Span>)
    requires 0 < limit && at <= |text|
    decreases |text| - at
  {
    if |text| - at <= limit then (if at == |text| then [] else [Span(at, |text|)])
    else
      var cut := at + BreakAt(text[at..], limit);
      [Span(at, ChunkEnd(text, at, cut))] + SpansFrom(text, SkipSpace(text, cut), limit)
  }

  ghost function Spans(text: Text, limit: nat): seq<Span>
    requires 0 < limit
  {
    if text == [] then [Span(0, 0)] else SpansFrom(text, 0, limit)
  }

  ghost predicate Covered(spans: seq<Span>, p: nat) {
    exists i :: 0 <= i < |spans| && spans[i].Covers(p)
  }

  /** The spans lie in order in text[at..] and leave out whitespace only. */
  ghost predicate Tiles(text: Text, at: nat, spans: seq<Span>) {
    && (forall i :: 0 <= i < |spans| ==> at <= spans[i].lo <= spans[i].hi <= |text|)
    && (forall i, j :: 0 <= i < j < |spans| ==> spans[i].hi <= spans[j].lo)
    && (forall p: nat :: at <= p < |text| && !IsSpace(text[p]) ==> Covered(spans, p))
  }

  lemma {:induction false} SkipSpaceShift(text: Text, cut: nat, i: nat)
    requires cut + i <= |text|
    ensures SkipSpace(text, cut + i) == cut + SkipSpace(text[cut..], i)
    decreases |text| - i
  {
    if cut + i < |text| && IsSpace(text[cut + i]) {
      SkipSpaceShift(text, cut, i + 1);
    }
  }

  lemma SpansRound(text: Text, at: nat, limit: nat)
    requires 0 < limit && at + limit < |text|
    ensures var cut := at + BreakAt(text[at..], limit);
      SpansFrom(text, at, limit) == [Span(at, ChunkEnd(text, at, cut))] + SpansFrom(text, SkipSpace(text, cut), limit)
  {
  }

  lemma PiecesUnfold(s: Text, limit: nat, b: nat)
    requires 0 < limit < |s| && b == BreakAt(s, limit)
    ensures Pieces(s, limit) == [TrimEnd(s[..b])] + Pieces(TrimStart(s[b..]), limit)
  {
  }

  lemma SliceOfSlice(text: Text, at: nat, cut: nat, n: nat)
    requires at + n <= cut <= |text|
    ensures text[at..cut][..n] == text[at..at + n]
    ensures text[at..][n..] == text[at + n..]
  {
  }

  lemma EndText(text: Text, at: nat, cut: nat)
    requires at <= cut <= |text|
    ensures TrimEnd(text[at..cut]) == text[at..ChunkEnd(text, at, cut)]
  {
    SliceOfSlice(text, at, cut, ChunkEnd(text, at, cut) - at);
  }

  lemma StartText(text: Text, cut: nat)
    requires cut <= |text|
    ensures TrimStart(text[cut..]) == text[SkipSpace(text, cut)..]
  {
    SkipSpaceShift(text, cut, 0);
    SliceOfSlice(text, cut, |text|, SkipSpace(text, cut) - cut);
  }

  lemma RoundTexts(text: Text, at: nat, cut: nat)
    requires at <= cut <= |text|
    ensures TrimEnd(text[at..][..cut - at]) == text[at..ChunkEnd(text, at, cut)]
    ensures TrimStart(text[at..][cut - at..]) == text[SkipSpace(text, cut)..]
  {
    SliceOfSlice(text, at, |text|, cut - at);
    assert text[at..|text|] == text[at..];
    EndText(text, at, cut);
    StartText(text, cut);
  }

  lemma PiecesRound(text: Text, at: nat, limit: nat, cut: nat)
    requires 0 < limit && at + limit < |text| && cut == at + BreakAt(text[at..], limit)
    ensures Pieces(text[at..], limit) == [text[at..ChunkEnd(text, at, cut)]] + Pieces(text[SkipSpace(text, cut)..], limit)
  {
    PiecesUnfold(text[at..], limit, cut - at);
    RoundTexts(text, at, cut);
  }

  lemma ChunkEndBlank(text: Text, at: nat, cut: nat)
    requires at <= cut <= |text|
    ensures forall p :: ChunkEnd(text, at, cut) <= p < cut ==> IsSpace(text[p])
  {
    forall p | ChunkEnd(text, at, cut) <= p < cut ensures IsSpace(text[p]) {
      assert text[p] == text[at..cut][p - at];
    }
  }

  /** One round of the loop, in positions of the text. */
  lemma Round(text: Text, at: nat, limit: nat) returns (cut: nat, hi: nat, next: nat)
    requires 0 < limit && at + limit < |text|
    ensures cut == at + BreakAt(text[at..], limit) && at <= hi <= cut <= next <= |text| && hi - at <= limit
    ensures SpansFrom(text, at, limit) == [Span(at, hi)] + SpansFrom(text, next, limit)
    ensures Pieces(text[at..], limit) == [text[at..hi]] + Pieces(text[next..], limit)
    ensures forall p :: hi <= p < next ==> IsSpace(text[p])
    ensures next < |text| ==> !IsSpace(text[next])
  {
    cut := at + BreakAt(text[at..], limit);
    hi, next := ChunkEnd(text, at, cut), SkipSpace(text, cut);
    SpansRound(text, at, limit);
    PiecesRound(text, at, limit, cut);
    ChunkEndBlank(text, at, cut);
  }

  lemma TilesOneMore(text: Text, at: nat, hi: nat, next: nat, rest: seq<Span>)
    requires at <= hi <= next <= |text| && (forall p :: hi <= p < next ==> IsSpace(text[p]))
    requires Tiles(text, next, rest)
    ensures Tiles(text, at, [Span(at, hi)] + rest)
  {
    var spans := [Span(at, hi)] + rest;
    forall p: nat | at <= p < |text| && !IsSpace(text[p]) ensures Covered(spans, p) {
      if p < hi {
        assert spans[0].Covers(p);
      } else {
        var i :| 0 <= i < |rest| && rest[i].Covers(p);
        assert spans[i + 1].Covers(p);
      }
    }
  }

  lemma {:induction false} SpansTile(text: Text, at: nat, limit: nat)
    requires 0 < limit && at <= |text|
    ensures Tiles(text, at, SpansFrom(text, at, limit))
    decreases |text| - at
  {
    if |text| - at <= limit {
      assert forall p: nat :: at <= p < |text| ==> SpansFrom(text, at, limit)[0].Covers(p);
    } else {
      var cut, hi, next := Round(text, at, limit);
      SpansTile(text, next, limit);
      TilesOneMore(text, at, hi, next, SpansFrom(text, next, limit));
    }
  }

  /** Each chunk is what the text has in its span, and no longer than the limit. */
  ghost predicate Cut(text: Text, limit: nat, spans: seq<Span>, chunks: seq<Text>) {
    |chunks| == |spans| && forall i :: 0 <= i < |chunks| ==>
      && spans[i].lo <= spans[i].hi <= |text| && spans[i].hi - spans[i].lo <= limit
      && chunks[i] == text[spans[i].lo..spans[i].hi]
  }

  lemma CutOneMore(text: Text, limit: nat, at: nat, hi: nat, spans: seq<Span>, chunks: seq<Text>)
    requires at <= hi <= |text| && hi - at <= limit && Cut(text, limit, spans, chunks)
    ensures Cut(text, limit, [Span(at, hi)] + spans, [text[at..hi]] + chunks)
  {
  }

  lemma {:induction false} SpansCut(text: Text, at: nat, limit: nat)
    requires 0 < limit && at <= |text|
    ensures Cut(text, limit, SpansFrom(text, at, limit), Pieces(text[at..], limit))
    decreases |text| - at
  {
    if |text| - at > limit {
      var cut, hi, next := Round(text, at, limit);
      SpansCut(text, next, limit);
      CutOneMore(text, limit, at, hi, SpansFrom(text, next, limit), Pieces(text[next..], limit));
    }
  }

  /** Conservation: each chunk has at most limit units and is a piece of the text, the pieces
      follow each other, and what lies outside them is whitespace. */
  lemma ChunksConserve(text: Text, limit: nat)
    requires 0 < limit
    ensures Tiles(text, 0, Spans(text, limit)) && Cut(text, limit, Spans(text, limit), Chunks(text, limit))
  {
    SpansTile(text, 0, limit);
    SpansCut(text, 0, limit);
    assert text[0..] == text;
  }

  // ---- empty chunks ----

  /** After the first round no chunk is empty. */
  lemma {:induction false} LaterPiecesFilled(s: Text, limit: nat)
    requires 0 < limit && (s == [] || !IsSpace(s[0]))
    ensures forall i :: 0 <= i < |Pieces(s, limit)| ==> Pieces(s, limit)[i] != []
    decreases |s|
  {
    if |s| > limit {
      var b := BreakAt(s, limit);
      LaterPiecesFilled(TrimStart(s[b..]), limit);
      assert !IsSpace(s[..b][0]);
    }
  }

  /** No chunk is empty exactly when the text is not empty and, if it has to be broken, its
      first piece holds something besides whitespace. */
  lemma NoEmptyChunk(text: Text, limit: nat)
    requires 0 < limit
    ensures [] !in Chunks(text, limit) <==>
      text != [] && (|text| <= limit || !Blank(text[..BreakAt(text, limit)]))
  {
    if |text| > limit {
      var b := BreakAt(text, limit);
      var kept, rest := TrimEnd(text[..b]), TrimStart(text[b..]);
      LaterPiecesFilled(rest, limit);
      assert Chunks(text, limit) == [kept] + Pieces(rest, limit);
      assert Chunks(text, limit)[0] == kept;
    } else if text != [] {
      assert Chunks(text, limit) == [text];
    } else {
      assert Chunks(text, limit)[0] == [];
    }
  }

  /** A text of two units with an empty chunk. */
  lemma LeadingSpaceEmpties()
    ensures [] in Chunks([SPACE, 0x61], 1)
  {
    assert [SPACE, 0x61 as CodeUnit][..1] == [SPACE];
    NoEmptyChunk([SPACE, 0x61], 1);
  }

  // ---- whole words ----

  /** A run without a space or newline, from one visible unit to another. */
  ghost predicate Word(text: Text, p: nat, q: nat) {
    && p <= q < |text| && !IsSpace(text[p]) && !IsSpace(text[q])
    && forall k :: p <= k <= q ==> !IsBreak(text[k])
  }

  /** Every run without a space or newline fits into one chunk. */
  ghost predicate ShortRuns(text: Text, limit: nat) {
    forall p: nat, q: nat :: p <= q < |text| && Unbroken(text, p, q) ==> q - p < limit
  }

  ghost predicate Unbroken(text: Text, p: nat, q: nat) {
    q < |text| && forall k :: p <= k <= q ==> !IsBreak(text[k])
  }

  /** No word is cut: its two ends lie in the same spans. */
  ghost predicate WordsWhole(text: Text, at: nat, spans: seq<Span>) {
    forall p: nat, q: nat, i :: at <= p && 0 <= i < |spans| && Word(text, p, q) ==>
      (spans[i].Covers(p) <==> spans[i].Covers(q))
  }

  /** The one way a word is cut: the text starts with a space or newline, has no other in its
      first limit units, and a word runs across that limit. */
  ghost predicate LeadingCut(text: Text, limit: nat) {
    && 0 < limit < |text| && IsBreak(text[0])
    && (forall k :: 0 < k < limit ==> !IsBreak(text[k]))
    && exists p: nat, q: nat :: p < limit <= q && Word(text, p, q)
  }

  /** The first round cuts a word only if the text starts with a break. */
  lemma RoundCutsNone(text: Text, at: nat, limit: nat, p: nat, q: nat)
    requires 0 < limit && at + limit < |text| && ShortRuns(text, limit)
    requires at <= p < at + BreakAt(text[at..], limit) <= q && Word(text, p, q)
    ensures BreakAt(text[at..], limit) == limit && IsBreak(text[at])
    ensures forall k :: at < k < at + limit ==> !IsBreak(text[k])
  {
    var s, b := text[at..], BreakAt(text[at..], limit);
    assert s[b..] == text[at + b..];
    if b == limit {
      forall k | at < k < at + limit ensures !IsBreak(text[k]) {
        assert text[k] == s[k - at];
      }
      assert Unbroken(text, at, q) ==> q - at < limit;
    }
  }

  /** If a round cuts no word, the words stay whole as far as the later rounds keep them. */
  lemma RoundKeepsWords(text: Text, at: nat, cut: nat, hi: nat, next: nat, rest: seq<Span>)
    requires at <= hi <= cut <= next <= |text| && (forall p :: hi <= p < next ==> IsSpace(text[p]))
    requires Tiles(text, next, rest) && WordsWhole(text, next, rest)
    requires forall p: nat, q: nat :: at <= p < cut <= q ==> !Word(text, p, q)
    ensures WordsWhole(text, at, [Span(at, hi)] + rest)
  {
    var spans := [Span(at, hi)] + rest;
    forall p: nat, q: nat, i | at <= p && 0 <= i < |spans| && Word(text, p, q)
      ensures spans[i].Covers(p) <==> spans[i].Covers(q)
    {
      if i > 0 {
        assert spans[i] == rest[i - 1];
      }
    }
  }

  lemma {:induction false} WordsWholeFrom(text: Text, at: nat, limit: nat)
    requires 0 < limit && at <= |text| && ShortRuns(text, limit)
    requires at < |text| ==> !IsSpace(text[at])
    ensures WordsWhole(text, at, SpansFrom(text, at, limit))
    decreases |text| - at
  {
    if at + limit < |text| {
      var cut, hi, next := Round(text, at, limit);
      WordsWholeFrom(text, next, limit);
      SpansTile(text, next, limit);
      forall p: nat, q: nat | at <= p < cut <= q ensures !Word(text, p, q) {
        if Word(text, p, q) {
          RoundCutsNone(text, at, limit, p, q);
        }
      }
      RoundKeepsWords(text, at, cut, hi, next, SpansFrom(text, next, limit));
    }
  }

  lemma ForcedCut(text: Text, limit: nat)
    requires LeadingCut(text, limit)
    ensures !WordsWhole(text, 0, Spans(text, limit))
  {
    var cut, hi, next := Round(text, 0, limit);
    assert text[0..] == text;
    var p: nat, q: nat :| p < limit <= q && Word(text, p, q);
    assert cut == limit;
    var spans := Spans(text, limit);
    assert spans[0] == Span(0, hi);
    assert spans[0].Covers(p) && !spans[0].Covers(q);
  }

  lemma NoForcedCut(text: Text, limit: nat)
    requires 0 < limit && ShortRuns(text, limit) && !LeadingCut(text, limit)
    ensures WordsWhole(text, 0, Spans(text, limit))
  {
    if limit < |text| {
      var cut, hi, next := Round(text, 0, limit);
      assert text[0..] == text;
      WordsWholeFrom(text, next, limit);
      SpansTile(text, next, limit);
      forall p: nat, q: nat | p < cut <= q ensures !Word(text, p, q) {
        if Word(text, p, q) {
          RoundCutsNone(text, 0, limit, p, q);
        }
      }
      RoundKeepsWords(text, 0, cut, hi, next, SpansFrom(text, next, limit));
    }
  }

  /** Words that fit into a chunk stay whole exactly when the text does not force a cut behind
      a leading space or newline. */
  lemma WordsStayWhole(text: Text, limit: nat)
    requires 0 < limit && ShortRuns(text, limit)
    ensures WordsWhole(text, 0, Spans(text, limit)) <==> !LeadingCut(text, limit)
  {
    if LeadingCut(text, limit) {
      ForcedCut(text, limit);
    } else {
      NoForcedCut(text, limit);
    }
  }

  /** A leading space can cut a word of three units although a chunk holds three. */
  lemma LeadingSpaceCuts()
    ensures var text := [SPACE, 0x61, 0x62, 0x63]; ShortRuns(text, 3) && !WordsWhole(text, 0, Spans(text, 3))
  {
    var text := [SPACE, 0x61, 0x62, 0x63];
    assert Word(text, 1, 3);
    forall p: nat, q: nat | p <= q < |text| && Unbroken(text, p, q) ensures q - p < 3 {
      assert p == 0 ==> IsBreak(text[p]);
    }
    WordsStayWhole(text, 3);
  }

  // ---- what the source returns, for real limits ----

  /** The first chunk of a text that is too long ends in front of the last newline or space between
      its first unit and the limit, and at the limit if there is none. */
  ghost predicate FirstBreak(text: Text, limit: real, b: nat) {
    && 0 < b <= |text| && b as real <= limit < (|text| as real)
    && (b as real <= limit - 1.0 ==> text[b] == 0x0A || text[b] == 0x20)
    && (forall p :: b < p < |text| && p as real <= limit - 1.0 ==> text[p] != 0x0A && text[p] != 0x20)
    && (b as real > limit - 1.0 ==>
          forall p :: 0 < p < |text| && p as real <= limit - 1.0 ==> text[p] != 0x0A && text[p] != 0x20)
  }

  lemma FirstBreakAt(text: Text, limit: real)
    requires limit >= 1.0 && |text| as real > limit
    ensures limit.Floor < |text| && FirstBreak(text, limit, BreakAt(text, limit.Floor))
  {
  }

  /** Chunks that start with the text in front of b and go on with what follows it. */
  ghost predicate StartsAt(text: Text, limit: real, b: nat, chunks: seq<Text>) {
    && FirstBreak(text, limit, b)
    && (var rest := TrimStart(text[b..]);
        chunks == [TrimEnd(text[..b])] + if rest == [] then [] else ChunksUpTo(rest, limit))
  }

  /** A text that fits comes back whole; from one that does not, the first chunk is cut and the rest
      is chunked on its own. */
  lemma OutboundRounds(text: Text, limit: real)
    requires limit >= 1.0
    ensures |text| as real <= limit ==> ChunksUpTo(text, limit) == [text]
    ensures |text| as real > limit ==> exists b: nat :: StartsAt(text, limit, b, ChunksUpTo(text, limit))
  {
    if |text| as real > limit {
      FirstBreakAt(text, limit);
      var b := BreakAt(text, limit.Floor);
      PiecesUnfold(text, limit.Floor, b);
      assert StartsAt(text, limit, b, ChunksUpTo(text, limit));
    }
  }

  lemma CutBounded(text: Text, limit: real, spans: seq<Span>, chunks: seq<Text>)
    requires limit >= 1.0 && Cut(text, limit.Floor, spans, chunks)
    ensures forall i :: 0 <= i < |chunks| ==> |chunks[i]| as real <= limit
  {
  }

  /** What is returned for a limit of at least 1: chunks within the limit that are pieces of the
      text in order and leave out whitespace only. */
  lemma OutboundConserves(text: Text, limit: real)
    requires limit >= 1.0
    ensures var chunks, spans := ChunksUpTo(text, limit), Spans(text, limit.Floor);
      && (forall i :: 0 <= i < |chunks| ==> |chunks[i]| as real <= limit)
      && Tiles(text, 0, spans) && Cut(text, limit.Floor, spans, chunks)
  {
    ChunksConserve(text, limit.Floor);
    CutBounded(text, limit, Spans(text, limit.Floor), ChunksUpTo(text, limit));
  }

  /** Words that fit into a chunk are whole in what is returned exactly when no leading break forces
      a cut: the chunks are what the text has in these spans. */
  lemma OutboundWords(text: Text, limit: real)
    requires limit >= 1.0 && ShortRuns(text, limit.Floor)
    ensures Cut(text, limit.Floor, Spans(text, limit.Floor), ChunksUpTo(text, limit))
    ensures WordsWhole(text, 0, Spans(text, limit.Floor)) <==> !LeadingCut(text, limit.Floor)
  {
    ChunksConserve(text, limit.Floor);
    WordsStayWhole(text, limit.Floor);
  }

  /** No chunk returned is empty exactly when the text is not and its first piece, if it is broken,
      is not blank. */
  lemma OutboundFilled(text: Text, limit: real, b: nat)
    requires limit >= 1.0 && (|text| as real > limit ==> FirstBreak(text, limit, b))
    ensures [] !in ChunksUpTo(text, limit) <==> text != [] && (|text| as real <= limit || !Blank(text[..b]))
  {
    NoEmptyChunk(text, limit.Floor);
    if |text| as real > limit {
      FirstBreakAt(text, limit);
      FirstBreakUnique(text, limit, b, BreakAt(text, limit.Floor));
    }
  }

  lemma FirstBreakUnique(text: Text, limit: real, a: nat, b: nat)
    requires FirstBreak(text, limit, a) && FirstBreak(text, limit, b)
    ensures a == b
  {
  }

  /** Below 1 a single empty chunk is returned. */
  lemma OutboundBelowOne(text: Text, limit: real)
    requires limit < 1.0
    ensures ChunksUpTo(text, limit) == [[]]
  {
  }
}
