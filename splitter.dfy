/** The thread splitter of twinewriter/nodes.py (`thread_splitter_node`): cut the draft
    into sentences, pack them greedily into chunks that leave room for a numbering
    prefix, fall back to word-by-word packing for a sentence longer than the budget,
    and number the chunks `"{i}/{N} "`. */
module Splitter {
  import opened Text
  import opened Models

  /** Characters kept back from the length budget for the `"{i}/{N} "` prefix. */
  const Reserve := 6

  // ---------------------------------------------------------------------------
  // Sentence segmentation: re.split(r'(?<=[.!?])\s+', content)

  predicate IsTerminator(c: char) {
    c == '.' || c == '!' || c == '?'
  }

  /** The pattern can start a match at `p`: a terminator just before, whitespace at `p`. */
  predicate BreakAt(s: String, p: int) {
    1 <= p < |s| && IsTerminator(s[p - 1]) && IsSpace(s[p])
  }

  /** The leftmost match position at or after `k`, or `|s|` when there is none. */
  function FirstBreak(s: String, k: nat): (p: nat)
    requires k >= 1
    ensures p == |s| || (k <= p && BreakAt(s, p))
    decreases |s| - k
  {
    if k >= |s| then |s| else if BreakAt(s, k) then k else FirstBreak(s, k + 1)
  }

  /** No match starts between `k` and the position `FirstBreak` finds. */
  lemma {:induction false} FirstBreakIsFirst(s: String, k: nat)
    requires k >= 1
    ensures forall q :: k <= q < FirstBreak(s, k) ==> !BreakAt(s, q)
    decreases |s| - k
  {
    if k < |s| && !BreakAt(s, k) {
      FirstBreakIsFirst(s, k + 1);
    }
  }

  /** The end of the maximal whitespace run starting at `p`: what the greedy `\s+` eats. */
  function SpaceEnd(s: String, p: nat): (e: nat)
    requires p <= |s|
    ensures p <= e <= |s|
    decreases |s| - p
  {
    if p == |s| || !IsSpace(s[p]) then p else SpaceEnd(s, p + 1)
  }

  lemma {:induction false} SpaceEndFacts(s: String, p: nat)
    requires p <= |s|
    ensures forall k :: p <= k < SpaceEnd(s, p) ==> IsSpace(s[k])
    ensures SpaceEnd(s, p) < |s| ==> !IsSpace(s[SpaceEnd(s, p)])
    decreases |s| - p
  {
    if p < |s| && IsSpace(s[p]) {
      SpaceEndFacts(s, p + 1);
    }
  }

  /** The segments `re.split` returns for the text from `start` on: the text up to the
      leftmost match, then the segments after the whitespace the match consumed. The
      search resumes one past `start`, which is where the scan of the whole string
      stands (a match never starts right after whitespace). */
  function SentencesFrom(s: String, start: nat): (segs: seq<String>)
    requires start <= |s|
    ensures |segs| >= 1
    decreases |s| - start
  {
    var p := FirstBreak(s, start + 1);
    if p == |s| then [s[start..]] else [s[start..p]] + SentencesFrom(s, SpaceEnd(s, p))
  }

  /** `re.split(r'(?<=[.!?])\s+', s)`. */
  function Sentences(s: String): (segs: seq<String>)
    ensures |segs| >= 1
  {
    SentencesFrom(s, 0)
  }

  lemma SentencesUnfold(s: String, start: nat, p: nat)
    requires start <= |s| && p == FirstBreak(s, start + 1) < |s|
    ensures SentencesFrom(s, start) == [s[start..p]] + SentencesFrom(s, SpaceEnd(s, p))
  {
  }

  /** A stretch of `s` in which no match starts has no match of its own. */
  lemma SegmentHasNoBreak(s: String, start: nat, p: nat)
    requires start < p <= |s|
    requires forall q :: start + 1 <= q < p ==> !BreakAt(s, q)
    ensures forall q :: !BreakAt(s[start..p], q)
  {
    forall q | BreakAt(s[start..p], q) ensures false {
      assert s[start..p][q - 1] == s[start + q - 1] && s[start..p][q] == s[start + q];
      assert BreakAt(s, start + q);
    }
  }

  /** Every segment but the last ends with its terminator, and no segment contains a
      further break. */
  lemma {:induction false} SentencesFromShape(s: String, start: nat)
    requires start <= |s|
    ensures forall i :: 0 <= i < |SentencesFrom(s, start)| - 1 ==>
      |SentencesFrom(s, start)[i]| > 0
      && IsTerminator(SentencesFrom(s, start)[i][|SentencesFrom(s, start)[i]| - 1])
    ensures forall i, q :: 0 <= i < |SentencesFrom(s, start)| ==> !BreakAt(SentencesFrom(s, start)[i], q)
    decreases |s| - start
  {
    var p := FirstBreak(s, start + 1);
    FirstBreakIsFirst(s, start + 1);
    if p == |s| {
      if start < |s| {
        SegmentHasNoBreak(s, start, |s|);
        assert s[start..|s|] == s[start..];
      }
    } else {
      SegmentHasNoBreak(s, start, p);
      assert s[start..p][p - start - 1] == s[p - 1];
      SentencesFromShape(s, SpaceEnd(s, p));
      SentencesUnfold(s, start, p);
    }
  }

  lemma SentencesShape(s: String)
    ensures forall i :: 0 <= i < |Sentences(s)| - 1 ==>
      |Sentences(s)[i]| > 0 && IsTerminator(Sentences(s)[i][|Sentences(s)[i]| - 1])
    ensures forall i, q :: 0 <= i < |Sentences(s)| ==> !BreakAt(Sentences(s)[i], q)
  {
    SentencesFromShape(s, 0);
  }

  /** The whitespace runs the matches consume, one between each two segments. */
  function SeparatorsFrom(s: String, start: nat): (gaps: seq<String>)
    requires start <= |s|
    ensures |gaps| == |SentencesFrom(s, start)| - 1
    decreases |s| - start
  {
    var p := FirstBreak(s, start + 1);
    if p == |s| then [] else [s[p..SpaceEnd(s, p)]] + SeparatorsFrom(s, SpaceEnd(s, p))
  }

  /** The segments with the separators put back between them. */
  function Interleave(segs: seq<String>, gaps: seq<String>): String
    requires |segs| >= 1 && |gaps| == |segs| - 1
    decreases |segs|
  {
    if |segs| == 1 then segs[0] else segs[0] + gaps[0] + Interleave(segs[1..], gaps[1..])
  }

  lemma SeparatorsUnfold(s: String, start: nat, p: nat)
    requires start <= |s| && p == FirstBreak(s, start + 1) < |s|
    ensures SeparatorsFrom(s, start) == [s[p..SpaceEnd(s, p)]] + SeparatorsFrom(s, SpaceEnd(s, p))
  {
  }

  lemma InterleaveCons(x: String, g: String, segs: seq<String>, gaps: seq<String>)
    requires |segs| >= 1 && |gaps| == |segs| - 1
    ensures Interleave([x] + segs, [g] + gaps) == x + g + Interleave(segs, gaps)
  {
    assert ([x] + segs)[1..] == segs && ([g] + gaps)[1..] == gaps;
  }

  /** Nothing is lost by the split but what the matches consume: putting the separators
      back between the segments gives the text again. */
  lemma {:induction false} SentencesFromJoin(s: String, start: nat)
    requires start <= |s|
    ensures Interleave(SentencesFrom(s, start), SeparatorsFrom(s, start)) == s[start..]
    decreases |s| - start
  {
    var p := FirstBreak(s, start + 1);
    if p == |s| {
      assert s[start..|s|] == s[start..];
    } else {
      var e := SpaceEnd(s, p);
      var rest, more := SentencesFrom(s, e), SeparatorsFrom(s, e);
      SentencesUnfold(s, start, p);
      SeparatorsUnfold(s, start, p);
      calc {
        Interleave(SentencesFrom(s, start), SeparatorsFrom(s, start));
        Interleave([s[start..p]] + rest, [s[p..e]] + more);
        { InterleaveCons(s[start..p], s[p..e], rest, more); }
        s[start..p] + s[p..e] + Interleave(rest, more);
        { SentencesFromJoin(s, e); }
        s[start..p] + s[p..e] + s[e..];
        { SliceSplit(s, start, p, e); }
        s[start..];
      }
    }
  }

  lemma SliceSplit(s: String, start: nat, p: nat, e: nat)
    requires start <= p <= e <= |s|
    ensures s[start..p] + s[p..e] + s[e..] == s[start..]
  {
  }

  /** The run a break consumes is non-empty whitespace. */
  lemma GapIsSpace(s: String, p: nat)
    requires p < |s| && IsSpace(s[p])
    ensures SpaceEnd(s, p) > p && AllSpace(s[p..SpaceEnd(s, p)])
  {
    var e := SpaceEnd(s, p);
    SpaceEndFacts(s, p);
    forall k | 0 <= k < e - p ensures IsSpace(s[p..e][k]) {
      assert s[p..e][k] == s[p + k];
    }
  }

  /** Every separator is a non-empty run of whitespace. */
  lemma {:induction false} SeparatorsAreSpace(s: String, start: nat)
    requires start <= |s|
    ensures forall i :: 0 <= i < |SeparatorsFrom(s, start)| ==>
      |SeparatorsFrom(s, start)[i]| > 0 && AllSpace(SeparatorsFrom(s, start)[i])
    decreases |s| - start
  {
    var p := FirstBreak(s, start + 1);
    if p < |s| {
      var e := SpaceEnd(s, p);
      var more := SeparatorsFrom(s, e);
      SeparatorsUnfold(s, start, p);
      SeparatorsAreSpace(s, e);
      GapIsSpace(s, p);
      forall i | 0 <= i < |more| + 1
        ensures |([s[p..e]] + more)[i]| > 0 && AllSpace(([s[p..e]] + more)[i])
      {
        if i > 0 {
          assert ([s[p..e]] + more)[i] == more[i - 1];
        }
      }
    }
  }

  /** A segment after a separator does not start with whitespace: the run was consumed
      whole. */
  lemma {:induction false} SegmentsStartNonSpace(s: String, start: nat)
    requires start <= |s|
    ensures forall i :: 1 <= i < |SentencesFrom(s, start)| && SentencesFrom(s, start)[i] != [] ==>
      !IsSpace(SentencesFrom(s, start)[i][0])
    decreases |s| - start
  {
    var p := FirstBreak(s, start + 1);
    if p < |s| {
      var e := SpaceEnd(s, p);
      SentencesUnfold(s, start, p);
      SegmentsStartNonSpace(s, e);
      SpaceEndFacts(s, p);
      SentencesFromHead(s, e);
    }
  }

  /** The first segment from `start` starts at `start`. */
  lemma SentencesFromHead(s: String, start: nat)
    requires start <= |s|
    ensures SentencesFrom(s, start)[0] != [] ==> SentencesFrom(s, start)[0][0] == s[start]
  {
  }

  lemma SentencesRebuild(s: String)
    ensures Interleave(Sentences(s), SeparatorsFrom(s, 0)) == s
    ensures forall i :: 0 <= i < |SeparatorsFrom(s, 0)| ==>
      |SeparatorsFrom(s, 0)[i]| > 0 && AllSpace(SeparatorsFrom(s, 0)[i])
    ensures forall i :: 1 <= i < |Sentences(s)| && Sentences(s)[i] != [] ==> !IsSpace(Sentences(s)[i][0])
  {
    SentencesFromJoin(s, 0);
    SeparatorsAreSpace(s, 0);
    SegmentsStartNonSpace(s, 0);
    assert s[0..] == s;
  }

  /** Cutting into sentences neither loses nor adds a word. */
  lemma {:induction false} SentencesFromKeepWords(s: String, start: nat)
    requires start <= |s|
    ensures WordsOfAll(SentencesFrom(s, start)) == Words(s[start..])
    decreases |s| - start
  {
    var p := FirstBreak(s, start + 1);
    if p == |s| {
      assert WordsOfAll([s[start..]]) == Words(s[start..]) + WordsOfAll([]);
    } else {
      var e := SpaceEnd(s, p);
      GapSeparates(s, start, p);
      SentencesFromKeepWords(s, e);
      SentencesUnfold(s, start, p);
      WordsOfAllCons(s[start..p], SentencesFrom(s, e));
    }
  }

  lemma SentencesKeepWords(s: String)
    ensures WordsOfAll(Sentences(s)) == Words(s)
  {
    SentencesFromKeepWords(s, 0);
    assert s[0..] == s;
  }

  /** The whitespace run a sentence break removes separates the words on its two sides. */
  lemma GapSeparates(s: String, start: nat, p: nat)
    requires start <= p < |s| && IsSpace(s[p])
    ensures Words(s[start..]) == Words(s[start..p]) + Words(s[SpaceEnd(s, p)..])
  {
    var e := SpaceEnd(s, p);
    GapIsSpace(s, p);
    SliceSplit(s, start, p, e);
    WordsSeparated(s[start..p], s[p..e], s[e..]);
  }

  // ---------------------------------------------------------------------------
  // Pieces: a sentence within the budget is packed whole, a longer one word by word

  /** A piece or a chunk respects the budget unless it is a single word longer than it. */
  predicate Fits(p: String, budget: int) {
    |p| <= budget || IsWord(p)
  }

  function PiecesOf(seg: String, budget: int): seq<String> {
    if |seg| > budget then Words(seg) else [seg]
  }

  /** The units the greedy loop appends, in order, for a list of sentences. */
  function Pieces(segs: seq<String>, budget: int): seq<String> {
    if segs == [] then [] else PiecesOf(segs[0], budget) + Pieces(segs[1..], budget)
  }

  /** Every piece is within the budget or is a single word. */
  lemma {:induction false} PiecesFit(segs: seq<String>, budget: int)
    ensures forall k :: 0 <= k < |Pieces(segs, budget)| ==> Fits(Pieces(segs, budget)[k], budget)
    decreases |segs|
  {
    if segs != [] {
      var head := PiecesOf(segs[0], budget);
      var rest := Pieces(segs[1..], budget);
      PiecesFit(segs[1..], budget);
      WordsAreWords(segs[0]);
      forall k | 0 <= k < |head + rest| ensures Fits((head + rest)[k], budget) {
        if k >= |head| {
          assert (head + rest)[k] == rest[k - |head|];
        }
      }
    }
  }

  lemma {:induction false} PiecesAppend(a: seq<String>, b: seq<String>, budget: int)
    ensures Pieces(a + b, budget) == Pieces(a, budget) + Pieces(b, budget)
    decreases |a|
  {
    if a == [] {
      assert a + b == b;
    } else {
      assert (a + b)[0] == a[0];
      assert (a + b)[1..] == a[1..] + b;
      PiecesAppend(a[1..], b, budget);
    }
  }

  /** Trading sentences for their pieces neither loses nor adds a word. */
  lemma {:induction false} PiecesKeepWords(segs: seq<String>, budget: int)
    ensures WordsOfAll(Pieces(segs, budget)) == WordsOfAll(segs)
    decreases |segs|
  {
    if segs != [] {
      var ps := PiecesOf(segs[0], budget);
      WordsOfAllAppend(ps, Pieces(segs[1..], budget));
      PiecesKeepWords(segs[1..], budget);
      if |segs[0]| > budget {
        WordsAreWords(segs[0]);
        WordsOfAllWords(ps);
      } else {
        assert WordsOfAll(ps) == Words(segs[0]) + WordsOfAll([]);
      }
    }
  }

  /** When every sentence but the last holds a word, so does every piece but the last. */
  lemma {:induction false} PiecesHaveWords(segs: seq<String>, budget: int)
    requires forall i :: 0 <= i < |segs| - 1 ==> Words(segs[i]) != []
    ensures forall k :: 0 <= k < |Pieces(segs, budget)| - 1 ==> Words(Pieces(segs, budget)[k]) != []
    decreases |segs|
  {
    if segs != [] {
      var head := PiecesOf(segs[0], budget);
      var rest := Pieces(segs[1..], budget);
      PiecesHaveWords(segs[1..], budget);
      var ps := head + rest;
      forall k | 0 <= k < |ps| - 1 ensures Words(ps[k]) != [] {
        if k < |head| {
          assert ps[k] == head[k];
          if |segs[0]| > budget {
            assert head == Words(segs[0]);
            WordsAreWords(segs[0]);
            assert IsWord(head[k]);
            WordsOfWord(head[k]);
          } else {
            assert head == [segs[0]];
            assert rest != [];
            assert |segs| > 1;
            assert Words(segs[0]) != [];
          }
        } else {
          assert ps[k] == rest[k - |head|];
          assert Words(rest[k - |head|]) != [];
        }
      }
    }
  }

  // ---------------------------------------------------------------------------
  // The greedy packing, as a specification

  /** The loop state of `thread_splitter_node`: the finished chunks and `current_tweet`. */
  datatype Packing = Packing(chunks: seq<String>, current: String)

  /** One iteration, the same for a sentence and for a word: append the piece and a space
      when the result stays within the budget, otherwise close the current chunk
      (stripped, and only if it is not empty) and start a new one with the piece. */
  function Step(st: Packing, piece: String, budget: int): Packing {
    if |st.current| + |piece| + 1 <= budget then
      Packing(st.chunks, st.current + piece + " ")
    else
      Packing(if st.current != [] then st.chunks + [Strip(st.current)] else st.chunks, piece + " ")
  }

  /** The state after all of `pieces` have been processed, left to right. */
  function Fold(pieces: seq<String>, budget: int): Packing
    decreases |pieces|
  {
    if pieces == [] then Packing([], [])
    else Step(Fold(pieces[..|pieces| - 1], budget), pieces[|pieces| - 1], budget)
  }

  /** The final `if current_tweet.strip(): tweets.append(current_tweet.strip())`. */
  function Flush(st: Packing): seq<String> {
    if Strip(st.current) != [] then st.chunks + [Strip(st.current)] else st.chunks
  }

  /** The chunks `thread_splitter_node` produces for `content` and a budget. */
  function Chunks(content: String, budget: int): seq<String> {
    Flush(Fold(Pieces(Sentences(content), budget), budget))
  }

  /** A chunk has no leading or trailing whitespace. */
  predicate Trimmed(c: String) {
    c == [] || (!IsSpace(c[0]) && !IsSpace(c[|c| - 1]))
  }

  /** The shape of `current_tweet` between iterations. */
  predicate CurrentShape(cur: String, budget: int) {
    cur == [] || (cur[|cur| - 1] == ' ' && (|cur| <= budget + 1 || IsWord(cur[..|cur| - 1])))
  }

  predicate GoodChunks(chunks: seq<String>, budget: int) {
    forall i :: 0 <= i < |chunks| ==>
      Fits(chunks[i], budget) && Words(chunks[i]) != [] && Trimmed(chunks[i])
  }

  /** What the loop keeps true: every word seen so far is in a chunk or in the current
      text, in order; chunks respect the budget, hold a word and are trimmed; the current
      text has its shape; and it holds a word when the last piece did. */
  predicate PackingInv(st: Packing, pieces: seq<String>, budget: int) {
    WordsOfAll(st.chunks) + Words(st.current) == WordsOfAll(pieces)
    && GoodChunks(st.chunks, budget)
    && CurrentShape(st.current, budget)
    && (st.current != [] ==> pieces != [])
    && (pieces != [] && Words(pieces[|pieces| - 1]) != [] ==> Words(st.current) != [])
  }

  /** Closing a current text of the right shape yields a chunk that respects the budget. */
  lemma ClosedChunkFits(cur: String, budget: int)
    requires cur != [] && CurrentShape(cur, budget)
    ensures Fits(Strip(cur), budget)
  {
    if |cur| > budget + 1 {
      var w := cur[..|cur| - 1];
      assert cur == w + " ";
      StripWordSpace(w);
    } else {
      StripTrailingSpace(cur);
    }
  }

  lemma ClosedChunkGood(chunks: seq<String>, cur: String, budget: int)
    requires GoodChunks(chunks, budget)
    requires cur != [] && CurrentShape(cur, budget) && Words(cur) != []
    ensures GoodChunks(chunks + [Strip(cur)], budget)
    ensures WordsOfAll(chunks + [Strip(cur)]) == WordsOfAll(chunks) + Words(cur)
  {
    StripTrims(cur);
    ClosedChunkFits(cur, budget);
    StripKeepsWords(cur);
    WordsOfAllAppend(chunks, [Strip(cur)]);
    assert WordsOfAll([Strip(cur)]) == Words(Strip(cur)) + WordsOfAll([]);
  }

  /** One step of the loop keeps the invariant. */
  lemma StepInv(st: Packing, ps: seq<String>, p: String, budget: int)
    requires PackingInv(st, ps, budget)
    requires Fits(p, budget)
    requires ps != [] ==> Words(ps[|ps| - 1]) != []
    ensures PackingInv(Step(st, p, budget), ps + [p], budget)
  {
    if |st.current| + |p| + 1 <= budget {
      StepInvExtend(st, ps, p, budget);
    } else {
      StepInvClose(st, ps, p, budget);
    }
  }

  lemma WordsOfAllSnoc(ps: seq<String>, p: String)
    ensures WordsOfAll(ps + [p]) == WordsOfAll(ps) + Words(p)
  {
    WordsOfAllAppend(ps, [p]);
    assert WordsOfAll([p]) == Words(p) + WordsOfAll([]);
  }

  lemma StepInvExtend(st: Packing, ps: seq<String>, p: String, budget: int)
    requires PackingInv(st, ps, budget)
    requires |st.current| + |p| + 1 <= budget
    ensures PackingInv(Packing(st.chunks, st.current + p + " "), ps + [p], budget)
  {
    WordsOfAllSnoc(ps, p);
    StepExtends(st.current, p, budget);
    ConcatAssoc(WordsOfAll(st.chunks), Words(st.current), Words(p));
    assert (ps + [p])[|ps|] == p;
  }

  lemma StepInvClose(st: Packing, ps: seq<String>, p: String, budget: int)
    requires PackingInv(st, ps, budget)
    requires Fits(p, budget)
    requires ps != [] ==> Words(ps[|ps| - 1]) != []
    requires |st.current| + |p| + 1 > budget
    ensures PackingInv(Packing(if st.current != [] then st.chunks + [Strip(st.current)] else st.chunks,
      p + " "), ps + [p], budget)
  {
    WordsOfAllSnoc(ps, p);
    StepCloses(st, ps, p, budget);
    assert (ps + [p])[|ps|] == p;
  }

  lemma StepExtends(cur: String, p: String, budget: int)
    requires cur == [] || cur[|cur| - 1] == ' '
    requires |cur| + |p| + 1 <= budget
    ensures Words(cur + p + " ") == Words(cur) + Words(p)
    ensures CurrentShape(cur + p + " ", budget)
  {
    WordsAppendPiece(cur, p);
    var cur' := cur + p + " ";
    assert cur'[|cur'| - 1] == ' ';
  }

  lemma StepCloses(st: Packing, ps: seq<String>, p: String, budget: int)
    requires PackingInv(st, ps, budget)
    requires Fits(p, budget)
    requires ps != [] ==> Words(ps[|ps| - 1]) != []
    requires |st.current| + |p| + 1 > budget
    ensures var chunks := if st.current != [] then st.chunks + [Strip(st.current)] else st.chunks;
      WordsOfAll(chunks) + Words(p + " ") == WordsOfAll(ps) + Words(p)
      && GoodChunks(chunks, budget)
      && CurrentShape(p + " ", budget)
      && Words(p + " ") == Words(p)
  {
    if st.current != [] {
      ClosedChunkGood(st.chunks, st.current, budget);
    } else {
      assert Words(st.current) == [];
    }
    StartShape(p, budget);
  }

  /** A piece that starts a new chunk gives a current text of the right shape. */
  lemma StartShape(p: String, budget: int)
    requires Fits(p, budget)
    ensures CurrentShape(p + " ", budget) && Words(p + " ") == Words(p)
  {
    WordsAppendPiece([], p);
    assert [] + p + " " == p + " ";
    assert (p + " ")[..|p|] == p;
  }

  lemma {:induction false} FoldInv(pieces: seq<String>, budget: int)
    requires forall k :: 0 <= k < |pieces| ==> Fits(pieces[k], budget)
    requires forall k :: 0 <= k < |pieces| - 1 ==> Words(pieces[k]) != []
    ensures PackingInv(Fold(pieces, budget), pieces, budget)
    decreases |pieces|
  {
    if pieces != [] {
      var ps := pieces[..|pieces| - 1];
      var p := pieces[|pieces| - 1];
      assert pieces == ps + [p];
      FoldInv(ps, budget);
      StepInv(Fold(ps, budget), ps, p, budget);
    }
  }

  /** Coverage: the chunks hold exactly the words of the draft, in order, none dropped,
      duplicated or cut. */
  lemma ChunksKeepWords(content: String, budget: int)
    ensures WordsOfAll(Chunks(content, budget)) == Words(content)
  {
    var segs := Sentences(content);
    var pieces := Pieces(segs, budget);
    ChunksFold(content, budget);
    var st := Fold(pieces, budget);
    SentencesKeepWords(content);
    PiecesKeepWords(segs, budget);
    if Strip(st.current) != [] {
      StripEmptyIffAllSpace(st.current);
      NoWordsIffAllSpace(st.current);
      ClosedChunkGood(st.chunks, st.current, budget);
    } else {
      StripKeepsWords(st.current);
      assert WordsOfAll(st.chunks) + [] == WordsOfAll(st.chunks);
    }
  }

  /** Every chunk respects the budget unless it is one over-long word, holds at least one
      word, and is trimmed. */
  lemma ChunksShape(content: String, budget: int)
    ensures GoodChunks(Chunks(content, budget), budget)
  {
    var st := Fold(Pieces(Sentences(content), budget), budget);
    ChunksFold(content, budget);
    if Strip(st.current) != [] {
      StripEmptyIffAllSpace(st.current);
      NoWordsIffAllSpace(st.current);
      ClosedChunkGood(st.chunks, st.current, budget);
    }
  }

  lemma ChunksFold(content: String, budget: int)
    ensures var pieces := Pieces(Sentences(content), budget);
      PackingInv(Fold(pieces, budget), pieces, budget)
  {
    var segs := Sentences(content);
    SentencesShape(content);
    forall i | 0 <= i < |segs| - 1 ensures Words(segs[i]) != [] {
      var seg := segs[i];
      assert !AllSpace(seg) by {
        assert !IsSpace(seg[|seg| - 1]);
      }
      NoWordsIffAllSpace(seg);
    }
    PiecesHaveWords(segs, budget);
    PiecesFit(segs, budget);
    FoldInv(Pieces(segs, budget), budget);
  }

  /** A draft without a word gives no chunk, and a draft with one gives at least one. */
  lemma ChunksEmptyIffNoWords(content: String, budget: int)
    ensures Chunks(content, budget) == [] <==> AllSpace(content)
  {
    var chunks := Chunks(content, budget);
    ChunksKeepWords(content, budget);
    ChunksShape(content, budget);
    NoWordsIffAllSpace(content);
    if chunks != [] {
      WordsOfAllAppend([chunks[0]], chunks[1..]);
      assert chunks == [chunks[0]] + chunks[1..];
      assert WordsOfAll([chunks[0]]) == Words(chunks[0]) + WordsOfAll([]);
    }
  }

  // ---------------------------------------------------------------------------
  // The loop of thread_splitter_node

  lemma FoldSnoc(ps: seq<String>, p: String, budget: int)
    ensures Fold(ps + [p], budget) == Step(Fold(ps, budget), p, budget)
  {
    assert (ps + [p])[..|ps|] == ps;
  }

  /** One greedy step of `thread_splitter_node`, the same for a sentence and for a word:
      append the piece and a space to `current` when that stays within the budget,
      otherwise close the stripped `current` (if any) and start again from the piece. */
  method AddPiece(tweets: seq<String>, current: String, piece: String, budget: int)
    returns (tweets': seq<String>, current': String)
    ensures Packing(tweets', current') == Step(Packing(tweets, current), piece, budget)
  {
    if |current| + |piece| + 1 <= budget {
      tweets', current' := tweets, current + piece + " ";
    } else {
      tweets' := tweets;
      if current != [] {
        tweets' := tweets + [Strip(current)];
      }
      current' := piece + " ";
    }
  }

  /** The sentence and word loops of `thread_splitter_node`, returning the unnumbered chunks. */
  method PackChunks(content: String, budget: int) returns (chunks: seq<String>)
    ensures chunks == Chunks(content, budget)
    ensures WordsOfAll(chunks) == Words(content)
    ensures GoodChunks(chunks, budget)
  {
    var sentences := Sentences(content);
    var tweets: seq<String> := [];
    var current: String := "";
    ghost var seen: seq<String> := [];
    var i := 0;
    while i < |sentences|
      invariant 0 <= i <= |sentences|
      invariant seen == Pieces(sentences[..i], budget)
      invariant Packing(tweets, current) == Fold(seen, budget)
    {
      var sentence := sentences[i];
      ghost var before := seen;
      if |sentence| > budget {
        var words := Words(sentence);
        tweets, current := PackWords(tweets, current, seen, words, budget);
        seen := seen + words;
      } else {
        FoldSnoc(seen, sentence, budget);
        tweets, current := AddPiece(tweets, current, sentence, budget);
        seen := seen + [sentence];
      }
      PiecesSnoc(sentences, i, budget);
      i := i + 1;
    }
    assert sentences[..i] == sentences;
    if Strip(current) != [] {
      tweets := tweets + [Strip(current)];
    }
    chunks := tweets;
    ChunksKeepWords(content, budget);
    ChunksShape(content, budget);
  }

  /** The inner loop of `thread_splitter_node` over the words of an over-long sentence:
      the same greedy step, once per word. */
  method PackWords(tweets: seq<String>, current: String, ghost seen: seq<String>,
                   words: seq<String>, budget: int)
    returns (tweets': seq<String>, current': String)
    requires Packing(tweets, current) == Fold(seen, budget)
    ensures Packing(tweets', current') == Fold(seen + words, budget)
  {
    tweets', current' := tweets, current;
    ghost var log := seen;
    var j := 0;
    while j < |words|
      invariant 0 <= j <= |words|
      invariant log == seen + words[..j]
      invariant Packing(tweets', current') == Fold(log, budget)
    {
      FoldSnoc(log, words[j], budget);
      tweets', current' := AddPiece(tweets', current', words[j], budget);
      LogExtends(seen, words, j);
      log := log + [words[j]];
      j := j + 1;
    }
    assert words[..j] == words;
  }

  lemma LogExtends(before: seq<String>, words: seq<String>, j: nat)
    requires j < |words|
    ensures before + words[..j] + [words[j]] == before + words[..j + 1]
  {
    assert words[..j + 1] == words[..j] + [words[j]];
  }

  lemma PiecesSnoc(segs: seq<String>, i: nat, budget: int)
    requires i < |segs|
    ensures Pieces(segs[..i + 1], budget) == Pieces(segs[..i], budget) + PiecesOf(segs[i], budget)
  {
    assert segs[..i + 1] == segs[..i] + [segs[i]];
    PiecesAppend(segs[..i], [segs[i]], budget);
    assert Pieces([segs[i]], budget) == PiecesOf(segs[i], budget) + Pieces([], budget);
  }

  // ---------------------------------------------------------------------------
  // Numbering

  /** The `TweetItem` list built from the chunks: tweet `i` of `N` carries index `i` and the
      content `"{i}/{N} "` followed by its chunk, with its character count. */
  function NumberChunks(chunks: seq<String>): (tweets: seq<TweetItem>)
    ensures |tweets| == |chunks|
    ensures ThreadValid(tweets)
    ensures forall i :: 0 <= i < |chunks| ==>
      tweets[i].content == ThreadPrefix(i + 1, |chunks|) + chunks[i]
  {
    seq(|chunks|, i requires 0 <= i < |chunks| =>
      var content := ThreadPrefix(i + 1, |chunks|) + chunks[i];
      TweetItem(i + 1, content, |content|))
  }

  /** The whole thread the splitter stores for a draft and a maximum tweet length. */
  function SplitThread(content: String, maxLength: int): seq<TweetItem> {
    NumberChunks(Chunks(content, maxLength - Reserve))
  }

  /** `thread_splitter_node`'s splitting of a draft: chunks of at most `maxLength - 6`
      characters, numbered. */
  method SplitDraft(content: String, maxLength: int) returns (tweets: seq<TweetItem>)
    ensures tweets == SplitThread(content, maxLength)
    ensures ThreadValid(tweets)
  {
    var effectiveMax := maxLength - Reserve;
    var chunks := PackChunks(content, effectiveMax);
    tweets := NumberChunks(chunks);
  }

  /** The text of each tweet of a thread after its numbering prefix. */
  function Bodies(tweets: seq<TweetItem>): (bodies: seq<String>)
    requires ThreadValid(tweets)
    requires |tweets| == 1 ==> ThreadPrefix(1, 1) <= tweets[0].content
    ensures |bodies| == |tweets|
  {
    seq(|tweets|, i requires 0 <= i < |tweets| =>
      tweets[i].content[|ThreadPrefix(i + 1, |tweets|)|..])
  }

  /** Stripping the numbering prefixes off a split thread gives back exactly the words of
      the draft, in order. */
  lemma SplitThreadKeepsWords(content: String, maxLength: int)
    ensures var tweets := SplitThread(content, maxLength);
      (|tweets| == 1 ==> ThreadPrefix(1, 1) <= tweets[0].content)
      && WordsOfAll(Bodies(tweets)) == Words(content)
  {
    var chunks := Chunks(content, maxLength - Reserve);
    var tweets := SplitThread(content, maxLength);
    assert Bodies(tweets) == chunks by {
      forall i | 0 <= i < |chunks| ensures Bodies(tweets)[i] == chunks[i] {
        assert tweets[i].content == ThreadPrefix(i + 1, |chunks|) + chunks[i];
      }
    }
    ChunksKeepWords(content, maxLength - Reserve);
  }

  /** A draft that is empty or only whitespace is split into no tweet at all, and any
      other draft into at least one. */
  lemma SplitThreadEmptyIffBlank(content: String, maxLength: int)
    ensures SplitThread(content, maxLength) == [] <==> AllSpace(content)
  {
    ChunksEmptyIffNoWords(content, maxLength - Reserve);
  }

  lemma {:induction false} WordsOfAllContains(ss: seq<String>, i: nat, w: String)
    requires i < |ss| && w in Words(ss[i])
    ensures w in WordsOfAll(ss)
    decreases i
  {
    if i > 0 {
      WordsOfAllContains(ss[1..], i - 1, w);
    }
  }

  /** Each tweet of a split thread is at most `maxLength - 6` characters after its
      prefix, unless that text is a single word longer than that. */
  lemma SplitThreadChunkBound(content: String, maxLength: int)
    ensures var tweets := SplitThread(content, maxLength);
      forall i :: 0 <= i < |tweets| ==>
        var body := tweets[i].content[|ThreadPrefix(i + 1, |tweets|)|..];
        |body| <= maxLength - Reserve || IsWord(body)
  {
    var chunks := Chunks(content, maxLength - Reserve);
    var tweets := SplitThread(content, maxLength);
    ChunksShape(content, maxLength - Reserve);
    forall i | 0 <= i < |tweets|
      ensures tweets[i].content[|ThreadPrefix(i + 1, |tweets|)|..] == chunks[i]
    {
      assert tweets[i].content == ThreadPrefix(i + 1, |chunks|) + chunks[i];
    }
  }

  /** With at most 99 tweets and no word longer than `maxLength - 6`, every tweet of the
      thread fits in `maxLength` characters. */
  lemma SplitThreadFits(content: String, maxLength: int)
    requires |SplitThread(content, maxLength)| <= 99
    requires forall w :: w in Words(content) ==> |w| <= maxLength - Reserve
    ensures forall t :: t in SplitThread(content, maxLength) ==> t.charCount <= maxLength
  {
    var budget := maxLength - Reserve;
    var chunks := Chunks(content, budget);
    var tweets := SplitThread(content, maxLength);
    ChunksShape(content, budget);
    ChunksKeepWords(content, budget);
    forall i | 0 <= i < |tweets| ensures tweets[i].charCount <= maxLength {
      ChunkWithinBudget(chunks, i, budget, content);
      NumberedChunkFits(chunks, i, budget);
    }
  }

  lemma ChunkWithinBudget(chunks: seq<String>, i: nat, budget: int, content: String)
    requires i < |chunks| && GoodChunks(chunks, budget)
    requires WordsOfAll(chunks) == Words(content)
    requires forall w :: w in Words(content) ==> |w| <= budget
    ensures |chunks[i]| <= budget
  {
    var c := chunks[i];
    if IsWord(c) {
      WordsOfWord(c);
      WordsOfAllContains(chunks, i, c);
    }
  }

  lemma NumberedChunkFits(chunks: seq<String>, i: nat, budget: int)
    requires i < |chunks| <= 99 && |chunks[i]| <= budget
    ensures NumberChunks(chunks)[i].charCount <= budget + Reserve
  {
    PrefixReserve(i + 1, |chunks|);
    assert NumberChunks(chunks)[i].content == ThreadPrefix(i + 1, |chunks|) + chunks[i];
  }
}
