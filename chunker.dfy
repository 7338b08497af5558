/**
 * The legal-aware chunker of `PDFProcessor.chunk_text`: a sliding window over
 * the extracted text that prefers to end at a paragraph break, a numbered
 * section marker or a sentence end found past 40% of the window, steps back by
 * the overlap, strips each window and drops the ones that are too short.
 */
module Chunker {
  import opened Text

  /** The configured chunking values. */
  const ChunkSize := 1500
  const ChunkOverlap := 300
  const MinChunkSize := 200

  /**
   * The window always moves forward, whatever the text: the hard cut advances by
   * `chunkSize` and a boundary cut by more than 40% of it, and both must exceed
   * the overlap. For a positive `chunkSize` and any other overlap, some text
   * makes `chunk_text` loop forever.
   */
  predicate Progresses(chunkSize: int, overlap: int) {
    0 < chunkSize && overlap < chunkSize && 5 * overlap <= 2 * chunkSize + 5
  }

  /** Python's `s[i:j]` for non-negative bounds. */
  function Slice(s: string, i: nat, j: nat): (r: string)
    ensures i <= j <= |s| ==> r == s[i..j]
    ensures j >= |s| && i <= |s| ==> r == s[i..]
    ensures |r| <= if j < i then 0 else j - i
  {
    var hi := if j < |s| then j else |s|;
    if i < hi then s[i..hi] else []
  }

  /** The code's threshold `b > chunk_size * 0.4`, exactly in integers. */
  predicate PastThreshold(b: int, chunkSize: int) {
    5 * b > 2 * chunkSize
  }

  /** `[b for b in breaks if b > chunk_size * 0.4]` */
  function AboveThreshold(breaks: seq<int>, chunkSize: int): seq<int> {
    if breaks == [] then []
    else (if PastThreshold(breaks[0], chunkSize) then [breaks[0]] else [])
         + AboveThreshold(breaks[1..], chunkSize)
  }

  /** The filter keeps exactly the breaks past the threshold. */
  lemma {:induction false} AboveThresholdMembers(breaks: seq<int>, chunkSize: int)
    ensures forall b :: b in AboveThreshold(breaks, chunkSize) <==> b in breaks && PastThreshold(b, chunkSize)
  {
    if breaks != [] {
      AboveThresholdMembers(breaks[1..], chunkSize);
      assert forall b :: b in breaks <==> b == breaks[0] || b in breaks[1..];
    }
  }

  /** Nothing passes the filter when no break is past the threshold. */
  lemma {:induction false} AboveThresholdNone(breaks: seq<int>, chunkSize: int)
    requires forall b :: b in breaks ==> !PastThreshold(b, chunkSize)
    ensures AboveThreshold(breaks, chunkSize) == []
  {
    if breaks != [] {
      assert breaks[0] in breaks;
      assert forall b :: b in breaks[1..] ==> b in breaks;
      AboveThresholdNone(breaks[1..], chunkSize);
    }
  }

  /** Python's `max` of a non-empty list. */
  function Max(bs: seq<int>): int
    requires bs != []
  {
    if |bs| == 1 then bs[0]
    else
      var rest := Max(bs[1..]);
      if bs[0] < rest then rest else bs[0]
  }

  /** `max` picks an element that no other element exceeds. */
  lemma {:induction false} MaxIsGreatest(bs: seq<int>)
    requires bs != []
    ensures Max(bs) in bs
    ensures forall b :: b in bs ==> b <= Max(bs)
  {
    if |bs| > 1 {
      MaxIsGreatest(bs[1..]);
      assert forall b :: b in bs ==> b == bs[0] || b in bs[1..];
    }
  }

  /** The five `rfind` results the code collects, in its order: three section patterns, then two sentence ends. */
  function Candidates(chunk: string): seq<int> {
    [RFind(chunk, "\n\n"), RFind(chunk, "\n["), RFind(chunk, "\n(")] + [RFind(chunk, ". "), RFind(chunk, ".\n")]
  }

  /** A cut candidate starts at `j`: a paragraph break, a section marker or a sentence end. */
  predicate IsBreakAt(chunk: string, j: int) {
    OccursAt(chunk, "\n\n", j) || OccursAt(chunk, "\n[", j) || OccursAt(chunk, "\n(", j)
    || OccursAt(chunk, ". ", j) || OccursAt(chunk, ".\n", j)
  }

  /** Every candidate is -1 or the start of a two-character pattern inside the chunk. */
  lemma CandidatesInChunk(chunk: string)
    ensures forall b :: b in Candidates(chunk) ==> b == -1 || 0 <= b <= |chunk| - 2
  {
    var c := Candidates(chunk);
    assert forall b :: b in c ==> b == c[0] || b == c[1] || b == c[2] || b == c[3] || b == c[4];
  }

  /** The chosen break, when there is one, lies past the threshold and leaves room for its pattern. */
  lemma ValidBreakFacts(chunk: string, chunkSize: int)
    requires 0 < chunkSize
    ensures var valid := AboveThreshold(Candidates(chunk), chunkSize);
      valid != [] ==> PastThreshold(Max(valid), chunkSize) && 0 < Max(valid) <= |chunk| - 2
  {
    var valid := AboveThreshold(Candidates(chunk), chunkSize);
    if valid != [] {
      AboveThresholdMembers(Candidates(chunk), chunkSize);
      MaxIsGreatest(valid);
      CandidatesInChunk(chunk);
    }
  }

  /**
   * The `end` that one iteration of the loop settles on for the window starting
   * at `start`: the full window when the text ends inside it; otherwise just
   * after the greatest break past the threshold, two characters on when that is
   * the paragraph break and one otherwise; the full window when there is none.
   */
  function CutEnd(text: string, start: nat, chunkSize: int): (end: int)
    requires start < |text| && 0 < chunkSize
    ensures start < end <= start + chunkSize
    ensures start + chunkSize >= |text| ==> end == start + chunkSize
    ensures end < start + chunkSize ==> PastThreshold(end - start - 1, chunkSize) && end < |text|
  {
    var end := start + chunkSize;
    if end >= |text| then end
    else
      var chunk := text[start..end];
      var valid := AboveThreshold(Candidates(chunk), chunkSize);
      if valid == [] then end
      else
        ValidBreakFacts(chunk, chunkSize);
        if Max(valid) == RFind(chunk, "\n\n") then start + Max(valid) + 2
        else start + Max(valid) + 1
  }

  /** A window of the text, `text[start:end]` before stripping. */
  datatype Window = Window(start: nat, end: nat)

  /**
   * `cut` says where the window starting at `s` ends, for every start `s`
   * before `n`: after `s`, at most `chunkSize` past it, and more than `overlap`
   * past it, so that stepping back by the overlap still moves forward.
   */
  predicate IsCutRule(cut: nat -> int, n: nat, chunkSize: int, overlap: int) {
    forall s: nat :: s < n ==> s < cut(s) <= s + chunkSize && s + overlap < cut(s)
  }

  /**
   * The windows a loop like `chunk_text`'s visits from `start` on in a text of
   * length `n` when `cut` decides where each ends: the next one starts `overlap`
   * characters before that end, and the loop stops once that start reaches `n`.
   */
  function Visit(n: nat, start: nat, cut: nat -> int, chunkSize: int, overlap: int): (ws: seq<Window>)
    requires IsCutRule(cut, n, chunkSize, overlap)
    decreases n - start
  {
    if start >= n then []
    else
      var end := cut(start);
      var next := end - overlap;
      if next >= n then [Window(start, end)]
      else [Window(start, end)] + Visit(n, next, cut, chunkSize, overlap)
  }

  /** `Visit` unfolded once, when the loop goes on after the window at `start`. */
  lemma VisitNext(n: nat, start: nat, cut: nat -> int, chunkSize: int, overlap: int, next: nat)
    requires IsCutRule(cut, n, chunkSize, overlap) && start < n
    requires next == cut(start) - overlap && next < n
    ensures Visit(n, start, cut, chunkSize, overlap)
      == [Window(start, cut(start))] + Visit(n, next, cut, chunkSize, overlap)
  {
  }

  /** `Visit` unfolded once, when the window at `start` is the last one. */
  lemma VisitLast(n: nat, start: nat, cut: nat -> int, chunkSize: int, overlap: int)
    requires IsCutRule(cut, n, chunkSize, overlap) && start < n
    requires cut(start) - overlap >= n
    ensures Visit(n, start, cut, chunkSize, overlap) == [Window(start, cut(start))]
  {
  }

  /** The loop's record of visited windows stays a prefix of all of them when it goes on after `start`. */
  lemma VisitStep(all: seq<Window>, done: seq<Window>, n: nat, start: nat, end: int, cut: nat -> int, chunkSize: int, overlap: int, next: nat)
    requires IsCutRule(cut, n, chunkSize, overlap) && start < n
    requires end == cut(start) && next == end - overlap && next < n
    requires all == done + Visit(n, start, cut, chunkSize, overlap)
    ensures 0 <= end && all == (done + [Window(start, end)]) + Visit(n, next, cut, chunkSize, overlap)
  {
    VisitNext(n, start, cut, chunkSize, overlap, next);
    AppendAssoc(done, [Window(start, end)], Visit(n, next, cut, chunkSize, overlap));
  }

  /** The loop's record of visited windows is all of them once it stops after `start`. */
  lemma VisitStop(all: seq<Window>, done: seq<Window>, n: nat, start: nat, end: int, cut: nat -> int, chunkSize: int, overlap: int)
    requires IsCutRule(cut, n, chunkSize, overlap) && start < n
    requires end == cut(start) && end - overlap >= n
    requires all == done + Visit(n, start, cut, chunkSize, overlap)
    ensures 0 <= end && all == done + [Window(start, end)]
  {
    VisitLast(n, start, cut, chunkSize, overlap);
  }

  /**
   * There are windows from `start` on exactly when `start` is before `n`; the
   * first starts at `start`, and the loop stops after the last because the next
   * start would reach `n`.
   */
  lemma {:induction false} VisitEnds(n: nat, start: nat, cut: nat -> int, chunkSize: int, overlap: int)
    requires IsCutRule(cut, n, chunkSize, overlap)
    decreases n - start
    ensures var ws := Visit(n, start, cut, chunkSize, overlap);
      && (ws != [] <==> start < n)
      && (ws != [] ==> ws[0].start == start && ws[|ws| - 1].end - overlap >= n)
  {
    if start < n {
      var ws := Visit(n, start, cut, chunkSize, overlap);
      var next := cut(start) - overlap;
      if next < n {
        VisitNext(n, start, cut, chunkSize, overlap, next);
        VisitEnds(n, next, cut, chunkSize, overlap);
        var tail := Visit(n, next, cut, chunkSize, overlap);
        assert ws[|ws| - 1] == tail[|tail| - 1];
      }
    }
  }

  /** Every window from `start` on starts in `[start, n)` and ends where `cut` says. */
  lemma {:induction false} VisitCuts(n: nat, start: nat, cut: nat -> int, chunkSize: int, overlap: int)
    requires IsCutRule(cut, n, chunkSize, overlap)
    decreases n - start
    ensures var ws := Visit(n, start, cut, chunkSize, overlap);
      forall i :: 0 <= i < |ws| ==> start <= ws[i].start < n && ws[i].end == cut(ws[i].start)
  {
    if start < n {
      var ws := Visit(n, start, cut, chunkSize, overlap);
      var next := cut(start) - overlap;
      if next < n {
        VisitNext(n, start, cut, chunkSize, overlap, next);
        VisitCuts(n, next, cut, chunkSize, overlap);
        var tail := Visit(n, next, cut, chunkSize, overlap);
        forall i | 0 < i < |ws| ensures start <= ws[i].start < n && ws[i].end == cut(ws[i].start) {
          assert ws[i] == tail[i - 1];
        }
      }
    }
  }

  /** The window after `ws[i]` starts `overlap` characters before `ws[i]` ends. */
  predicate StepsBack(ws: seq<Window>, i: int, overlap: int)
    requires 0 <= i < |ws| - 1
  {
    ws[i + 1].start == ws[i].end - overlap
  }

  /** Each window from `start` on begins `overlap` characters before the previous one ends. */
  lemma {:induction false} VisitStepsBack(n: nat, start: nat, cut: nat -> int, chunkSize: int, overlap: int)
    requires IsCutRule(cut, n, chunkSize, overlap)
    decreases n - start
    ensures var ws := Visit(n, start, cut, chunkSize, overlap);
      forall i :: 0 <= i < |ws| - 1 ==> StepsBack(ws, i, overlap)
  {
    if start < n {
      var ws := Visit(n, start, cut, chunkSize, overlap);
      var next := cut(start) - overlap;
      if next < n {
        VisitNext(n, start, cut, chunkSize, overlap, next);
        VisitStepsBack(n, next, cut, chunkSize, overlap);
        VisitEnds(n, next, cut, chunkSize, overlap);
        var tail := Visit(n, next, cut, chunkSize, overlap);
        forall i | 0 <= i < |ws| - 1 ensures StepsBack(ws, i, overlap) {
          if i > 0 {
            assert ws[i] == tail[i - 1] && ws[i + 1] == tail[i];
            assert StepsBack(tail, i - 1, overlap);
          } else {
            assert ws[1] == tail[0];
          }
        }
      }
    }
  }

  /** Index `k` of the text lies inside window `w`. */
  predicate Covers(w: Window, k: int) {
    w.start <= k < w.end
  }

  /** Index `k` of the text lies inside one of the windows `ws`. */
  predicate Covered(ws: seq<Window>, k: int) {
    exists i :: 0 <= i < |ws| && Covers(ws[i], k)
  }

  /** With a non-negative overlap the windows from `start` on leave no index in `[start, n)` out. */
  lemma {:induction false} VisitCovers(n: nat, start: nat, cut: nat -> int, chunkSize: int, overlap: int)
    requires IsCutRule(cut, n, chunkSize, overlap) && 0 <= overlap
    decreases n - start
    ensures var ws := Visit(n, start, cut, chunkSize, overlap);
      forall k :: start <= k < n ==> Covered(ws, k)
  {
    var ws := Visit(n, start, cut, chunkSize, overlap);
    if start < n {
      var next := cut(start) - overlap;
      if next < n {
        VisitNext(n, start, cut, chunkSize, overlap, next);
        VisitCovers(n, next, cut, chunkSize, overlap);
        var tail := Visit(n, next, cut, chunkSize, overlap);
        forall k | start <= k < n ensures Covered(ws, k) {
          if k < cut(start) {
            assert Covers(ws[0], k);
          } else {
            assert Covered(tail, k);
            var i :| 0 <= i < |tail| && Covers(tail[i], k);
            assert ws[i + 1] == tail[i];
          }
        }
      } else {
        VisitLast(n, start, cut, chunkSize, overlap);
        forall k | start <= k < n ensures Covered(ws, k) {
          assert Covers(ws[0], k);
        }
      }
    }
  }

  /** Under `Progresses` every window is non-empty, fits the size and outruns the overlap. */
  lemma CutEndAdvances(text: string, chunkSize: int, overlap: int)
    requires Progresses(chunkSize, overlap)
    ensures forall s: nat :: s < |text| ==>
      s < CutEnd(text, s, chunkSize) <= s + chunkSize && s + overlap < CutEnd(text, s, chunkSize)
  {
    forall s: nat | s < |text|
      ensures s < CutEnd(text, s, chunkSize) <= s + chunkSize && s + overlap < CutEnd(text, s, chunkSize)
    {
      var end := CutEnd(text, s, chunkSize);
      assert end == s + chunkSize || PastThreshold(end - s - 1, chunkSize);
    }
  }

  /** `cut` is a cut rule that agrees with `CutEnd` inside the text. */
  predicate IsChunkerCut(text: string, chunkSize: int, overlap: int, cut: nat -> int) {
    && 0 < chunkSize
    && IsCutRule(cut, |text|, chunkSize, overlap)
    && forall s: nat {:trigger CutEnd(text, s, chunkSize)} :: s < |text| ==> cut(s) == CutEnd(text, s, chunkSize)
  }

  /** The cut rule of `chunk_text`: `CutEnd` inside the text. */
  function CutRule(text: string, chunkSize: int, overlap: int): (cut: nat -> int)
    requires Progresses(chunkSize, overlap)
    ensures IsChunkerCut(text, chunkSize, overlap, cut)
  {
    CutEndAdvances(text, chunkSize, overlap);
    (s: nat) => if s < |text| then CutEnd(text, s, chunkSize) else s + chunkSize
  }

  /**
   * A cut rule of `chunk_text` known only by that property, so that proofs
   * about the loop never have to look inside `CutEnd`.
   */
  lemma ChooseCutRule(text: string, chunkSize: int, overlap: int) returns (cut: nat -> int)
    requires Progresses(chunkSize, overlap)
    ensures IsChunkerCut(text, chunkSize, overlap, cut)
  {
    cut := CutRule(text, chunkSize, overlap);
  }

  /** Two cut rules that agree before `n` visit the same windows. */
  lemma {:induction false} VisitAgree(n: nat, start: nat, cut: nat -> int, cut': nat -> int, chunkSize: int, overlap: int)
    requires IsCutRule(cut, n, chunkSize, overlap) && IsCutRule(cut', n, chunkSize, overlap)
    requires forall s: nat :: s < n ==> cut(s) == cut'(s)
    ensures Visit(n, start, cut, chunkSize, overlap) == Visit(n, start, cut', chunkSize, overlap)
    decreases n - start
  {
    if start < n && cut(start) - overlap < n {
      VisitAgree(n, cut(start) - overlap, cut, cut', chunkSize, overlap);
    }
  }

  /** Two cut rules of `chunk_text` agree everywhere inside the text. */
  lemma CutRulesAgree(text: string, chunkSize: int, overlap: int, cut: nat -> int, cut': nat -> int)
    requires IsChunkerCut(text, chunkSize, overlap, cut) && IsChunkerCut(text, chunkSize, overlap, cut')
    ensures forall s: nat :: s < |text| ==> cut(s) == cut'(s)
  {
    forall s: nat | s < |text| ensures cut(s) == cut'(s) {
      assert cut(s) == CutEnd(text, s, chunkSize);
    }
  }

  /** The windows `chunk_text` visits, in order, whichever of its cut rules decides them. */
  ghost function Windows(text: string, chunkSize: int, overlap: int): seq<Window>
    requires Progresses(chunkSize, overlap)
  {
    assert IsChunkerCut(text, chunkSize, overlap, CutRule(text, chunkSize, overlap));
    var cut :| IsChunkerCut(text, chunkSize, overlap, cut);
    Visit(|text|, 0, cut, chunkSize, overlap)
  }

  /** Every cut rule of `chunk_text` visits its windows. */
  lemma ChosenWindows(text: string, chunkSize: int, overlap: int, cut: nat -> int)
    requires Progresses(chunkSize, overlap) && IsChunkerCut(text, chunkSize, overlap, cut)
    ensures Visit(|text|, 0, cut, chunkSize, overlap) == Windows(text, chunkSize, overlap)
  {
    forall c | IsChunkerCut(text, chunkSize, overlap, c)
      ensures Visit(|text|, 0, c, chunkSize, overlap) == Visit(|text|, 0, cut, chunkSize, overlap)
    {
      CutRulesAgree(text, chunkSize, overlap, c, cut);
      VisitAgree(|text|, 0, c, cut, chunkSize, overlap);
    }
  }

  /** `w` is a window the loop can visit: it starts inside the text and ends where `CutEnd` says. */
  predicate IsCut(text: string, w: Window, chunkSize: int) {
    w.start < |text| && 0 < chunkSize && w.end == CutEnd(text, w.start, chunkSize)
  }

  /** The stripped text of a window, `text[start:end].strip()`. */
  function Piece(text: string, w: Window): (c: string)
    ensures w.start <= w.end ==> |c| <= w.end - w.start
  {
    Strip(Slice(text, w.start, w.end))
  }

  /** The stripped texts of the windows `ws`, in order. */
  function Pieces(text: string, ws: seq<Window>): seq<string> {
    seq(|ws|, i requires 0 <= i < |ws| => Piece(text, ws[i]))
  }

  /** The pieces that are at least `minChunkSize` long, in order. */
  function Kept(pieces: seq<string>, minChunkSize: int): seq<string> {
    if pieces == [] then []
    else
      var last := pieces[|pieces| - 1];
      Kept(pieces[..|pieces| - 1], minChunkSize) + (if |last| >= minChunkSize then [last] else [])
  }

  lemma KeptSnoc(pieces: seq<string>, c: string, minChunkSize: int)
    ensures Kept(pieces + [c], minChunkSize) == Kept(pieces, minChunkSize) + (if |c| >= minChunkSize then [c] else [])
  {
    assert (pieces + [c])[..|pieces|] == pieces;
  }

  /** `c` is one of `pieces` and at least `minChunkSize` long. */
  predicate LongPiece(pieces: seq<string>, c: string, minChunkSize: int) {
    exists i :: 0 <= i < |pieces| && pieces[i] == c && |c| >= minChunkSize
  }

  /** `Kept` keeps exactly the pieces that are long enough. */
  lemma {:induction false} KeptMembers(pieces: seq<string>, minChunkSize: int)
    ensures forall c :: c in Kept(pieces, minChunkSize) <==> LongPiece(pieces, c, minChunkSize)
  {
    if pieces != [] {
      var init, last := pieces[..|pieces| - 1], pieces[|pieces| - 1];
      KeptMembers(init, minChunkSize);
      var tail := if |last| >= minChunkSize then [last] else [];
      assert Kept(pieces, minChunkSize) == Kept(init, minChunkSize) + tail;
      forall c | c in Kept(pieces, minChunkSize) ensures LongPiece(pieces, c, minChunkSize) {
        if c in Kept(init, minChunkSize) {
          var i :| 0 <= i < |init| && init[i] == c && |c| >= minChunkSize;
          assert pieces[i] == init[i];
        } else {
          assert c in tail;
          assert pieces[|pieces| - 1] == c;
        }
      }
      forall c | LongPiece(pieces, c, minChunkSize) ensures c in Kept(pieces, minChunkSize) {
        var i :| 0 <= i < |pieces| && pieces[i] == c && |c| >= minChunkSize;
        if i < |pieces| - 1 {
          assert init[i] == pieces[i];
          assert LongPiece(init, c, minChunkSize);
        } else {
          assert c in tail;
        }
      }
    }
  }

  /** What `chunk_text(text, chunk_size, overlap, min_chunk_size)` returns. */
  ghost function Chunks(text: string, chunkSize: int, overlap: int, minChunkSize: int): seq<string>
    requires Progresses(chunkSize, overlap)
  {
    Kept(Pieces(text, Windows(text, chunkSize, overlap)), minChunkSize)
  }

  /** Cutting a slice short is slicing less. */
  lemma SliceTake(text: string, i: nat, j: nat, m: nat)
    requires i <= m <= j <= |text|
    ensures Slice(text, i, j)[..m - i] == Slice(text, i, m)
  {
    assert text[i..j][..m - i] == text[i..m];
  }

  /** Where `CutEnd` lands when some break lies past the threshold. */
  lemma CutEndAtBreak(text: string, start: nat, chunkSize: int, chunk: string, valid: seq<int>)
    requires 0 < chunkSize && start + chunkSize < |text| && chunk == text[start..start + chunkSize]
    requires valid == AboveThreshold(Candidates(chunk), chunkSize) && valid != []
    ensures 0 < Max(valid) <= |chunk| - 2
    ensures CutEnd(text, start, chunkSize) == start + Max(valid) + if Max(valid) == RFind(chunk, "\n\n") then 2 else 1
  {
    ValidBreakFacts(chunk, chunkSize);
  }

  /** Where `CutEnd` lands when no break lies past the threshold. */
  lemma CutEndNoBreak(text: string, start: nat, chunkSize: int, chunk: string)
    requires 0 < chunkSize && start + chunkSize < |text| && chunk == text[start..start + chunkSize]
    requires AboveThreshold(Candidates(chunk), chunkSize) == []
    ensures CutEnd(text, start, chunkSize) == start + chunkSize
  {
  }

  /** The candidate breaks of a window that lie past the threshold, and its paragraph break. */
  method ValidBreaks(chunk: string, chunkSize: int) returns (validBreaks: seq<int>, paragraphBreak: int)
    ensures validBreaks == AboveThreshold(Candidates(chunk), chunkSize)
    ensures paragraphBreak == RFind(chunk, "\n\n")
  {
    paragraphBreak := RFind(chunk, "\n\n");
    var sectionPatterns := [RFind(chunk, "\n\n"), RFind(chunk, "\n["), RFind(chunk, "\n(")];
    var sentenceBreaks := [RFind(chunk, ". "), RFind(chunk, ".\n")];
    var allBreaks := sectionPatterns + sentenceBreaks;
    assert allBreaks == Candidates(chunk);
    validBreaks := AboveThreshold(allBreaks, chunkSize);
  }

  /**
   * One window of `chunk_text`: the slice `text[start:start + chunk_size]`, cut
   * back to just after the last break past 40% of it when the text goes on.
   */
  method CutWindow(text: string, start: nat, chunkSize: int) returns (chunk: string, end: int)
    requires start < |text| && 0 < chunkSize
    ensures end == CutEnd(text, start, chunkSize)
    ensures chunk == Slice(text, start, end)
  {
    end := start + chunkSize;
    chunk := Slice(text, start, end);
    if end < |text| {
      assert chunk == text[start..end];
      var validBreaks, paragraphBreak := ValidBreaks(chunk, chunkSize);
      if validBreaks != [] {
        var breakPoint := Max(validBreaks);
        CutEndAtBreak(text, start, chunkSize, chunk, validBreaks);
        var cutAt := if breakPoint == paragraphBreak then breakPoint + 2 else breakPoint + 1;
        SliceTake(text, start, end, start + cutAt);
        chunk := chunk[..cutAt];
        end := start + cutAt;
      } else {
        CutEndNoBreak(text, start, chunkSize, chunk);
      }
    }
  }

  /** The stripped text of every window, known only by that property. */
  lemma ChoosePieceRule(text: string) returns (piece: Window -> string)
    ensures forall w: Window {:trigger Piece(text, w)} :: piece(w) == Piece(text, w)
  {
    piece := (w: Window) => Piece(text, w);
  }

  /** `Pieces` for a given piece function. */
  function PiecesBy(piece: Window -> string, ws: seq<Window>): seq<string> {
    seq(|ws|, i requires 0 <= i < |ws| => piece(ws[i]))
  }

  /** One more window adds its piece at the end. */
  lemma PiecesBySnoc(piece: Window -> string, ws: seq<Window>, w: Window)
    ensures PiecesBy(piece, ws + [w]) == PiecesBy(piece, ws) + [piece(w)]
  {
    assert forall i :: 0 <= i < |ws| ==> (ws + [w])[i] == ws[i];
  }

  /** With the stripped text as piece function, `PiecesBy` is `Pieces`. */
  lemma PiecesByIsPieces(text: string, piece: Window -> string, ws: seq<Window>)
    requires forall w: Window {:trigger Piece(text, w)} :: piece(w) == Piece(text, w)
    ensures PiecesBy(piece, ws) == Pieces(text, ws)
  {
  }

  /**
   * One iteration's window and its stripped text, stated through the cut rule
   * and the piece function that the loop's proof tracks.
   */
  method NextWindow(text: string, start: nat, chunkSize: int, ghost overlap: int, ghost cut: nat -> int, ghost piece: Window -> string)
    returns (chunkText: string, end: int)
    requires start < |text| && 0 < chunkSize
    requires IsChunkerCut(text, chunkSize, overlap, cut)
    requires forall w: Window {:trigger Piece(text, w)} :: piece(w) == Piece(text, w)
    ensures end == cut(start) && 0 <= end
    ensures chunkText == piece(Window(start, end))
  {
    var chunk;
    chunk, end := CutWindow(text, start, chunkSize);
    chunkText := Strip(chunk);
    assert chunkText == Piece(text, Window(start, end));
  }

  /** `PDFProcessor.chunk_text`. */
  method ChunkText(text: string, chunkSize: int, overlap: int, minChunkSize: int)
    returns (chunks: seq<string>)
    requires Progresses(chunkSize, overlap)
    ensures chunks == Chunks(text, chunkSize, overlap, minChunkSize)
    ensures forall c :: c in chunks ==> minChunkSize <= |c| <= chunkSize
    ensures text == [] ==> chunks == []
  {
    chunks := [];
    var start: nat := 0;
    var textLength := |text|;
    ghost var cut := ChooseCutRule(text, chunkSize, overlap);
    ghost var piece := ChoosePieceRule(text);
    ghost var all := Visit(textLength, 0, cut, chunkSize, overlap);
    ghost var done: seq<Window> := [];
    while start < textLength
      invariant all == done + Visit(textLength, start, cut, chunkSize, overlap)
      invariant chunks == Kept(PiecesBy(piece, done), minChunkSize)
      decreases textLength - start
    {
      var chunkText, end := NextWindow(text, start, chunkSize, overlap, cut, piece);
      ghost var w := Window(start, end);
      KeptPiecesSnoc(piece, done, w, chunks, chunkText, minChunkSize);
      if |chunkText| >= minChunkSize {
        chunks := chunks + [chunkText];
      }
      if end - overlap >= textLength {
        VisitStop(all, done, textLength, start, end, cut, chunkSize, overlap);
        done := done + [w];
        break;
      }
      VisitStep(all, done, textLength, start, end, cut, chunkSize, overlap, end - overlap);
      done := done + [w];
      start := end - overlap;
    }
    assert all == done;
    ChunksFromVisit(text, chunkSize, overlap, minChunkSize, cut, piece, done, chunks);
  }

  /** One more window adds its stripped text to the kept chunks exactly when it is long enough. */
  lemma KeptPiecesSnoc(piece: Window -> string, done: seq<Window>, w: Window, chunks: seq<string>, chunkText: string, minChunkSize: int)
    requires chunks == Kept(PiecesBy(piece, done), minChunkSize) && chunkText == piece(w)
    ensures Kept(PiecesBy(piece, done + [w]), minChunkSize) == chunks + if |chunkText| >= minChunkSize then [chunkText] else []
  {
    PiecesBySnoc(piece, done, w);
    KeptSnoc(PiecesBy(piece, done), chunkText, minChunkSize);
  }

  /** The chunks kept along the visited windows are `Chunks`, each within the size bounds. */
  lemma ChunksFromVisit(text: string, chunkSize: int, overlap: int, minChunkSize: int, cut: nat -> int, piece: Window -> string, done: seq<Window>, chunks: seq<string>)
    requires Progresses(chunkSize, overlap) && IsChunkerCut(text, chunkSize, overlap, cut)
    requires forall w: Window {:trigger Piece(text, w)} :: piece(w) == Piece(text, w)
    requires done == Visit(|text|, 0, cut, chunkSize, overlap)
    requires chunks == Kept(PiecesBy(piece, done), minChunkSize)
    ensures chunks == Chunks(text, chunkSize, overlap, minChunkSize)
    ensures forall c :: c in chunks ==> minChunkSize <= |c| <= chunkSize
  {
    PiecesByIsPieces(text, piece, done);
    ChosenWindows(text, chunkSize, overlap, cut);
    WindowsBounded(text, chunkSize, overlap, minChunkSize);
  }

  /** Every chunk is between `minChunkSize` and `chunkSize` long, the one from the last window included. */
  lemma WindowsBounded(text: string, chunkSize: int, overlap: int, minChunkSize: int)
    requires Progresses(chunkSize, overlap)
    ensures forall c :: c in Chunks(text, chunkSize, overlap, minChunkSize) ==> minChunkSize <= |c| <= chunkSize
  {
    var ws := Windows(text, chunkSize, overlap);
    var ps := Pieces(text, ws);
    var cut := ChooseCutRule(text, chunkSize, overlap);
    ChosenWindows(text, chunkSize, overlap, cut);
    VisitCuts(|text|, 0, cut, chunkSize, overlap);
    KeptMembers(ps, minChunkSize);
    forall c | c in Kept(ps, minChunkSize) ensures minChunkSize <= |c| <= chunkSize {
      var i :| 0 <= i < |ps| && ps[i] == c && |c| >= minChunkSize;
      assert ws[i].end == cut(ws[i].start) <= ws[i].start + chunkSize;
    }
  }

  /**
   * The first window starts at 0, there are windows exactly when the text is
   * not empty, and the loop stops after the last one because the next start,
   * `overlap` before its end, is past the end of the text.
   */
  lemma WindowsEnds(text: string, chunkSize: int, overlap: int)
    requires Progresses(chunkSize, overlap)
    ensures var ws := Windows(text, chunkSize, overlap);
      && (ws != [] <==> text != [])
      && (ws != [] ==> ws[0].start == 0 && ws[|ws| - 1].end - overlap >= |text|)
  {
    var cut := ChooseCutRule(text, chunkSize, overlap);
    ChosenWindows(text, chunkSize, overlap, cut);
    VisitEnds(|text|, 0, cut, chunkSize, overlap);
  }

  /** Every window starts inside the text and ends where `CutEnd` says. */
  lemma WindowsAreCuts(text: string, chunkSize: int, overlap: int)
    requires Progresses(chunkSize, overlap)
    ensures var ws := Windows(text, chunkSize, overlap);
      forall i :: 0 <= i < |ws| ==> IsCut(text, ws[i], chunkSize)
  {
    var ws := Windows(text, chunkSize, overlap);
    var cut := ChooseCutRule(text, chunkSize, overlap);
    ChosenWindows(text, chunkSize, overlap, cut);
    VisitCuts(|text|, 0, cut, chunkSize, overlap);
    forall i | 0 <= i < |ws| ensures IsCut(text, ws[i], chunkSize) {
      assert cut(ws[i].start) == CutEnd(text, ws[i].start, chunkSize);
    }
  }

  /** Each window after the first starts exactly `overlap` characters before the previous one ends. */
  lemma WindowsStepBack(text: string, chunkSize: int, overlap: int)
    requires Progresses(chunkSize, overlap)
    ensures var ws := Windows(text, chunkSize, overlap);
      forall i :: 0 <= i < |ws| - 1 ==> StepsBack(ws, i, overlap)
  {
    var cut := ChooseCutRule(text, chunkSize, overlap);
    ChosenWindows(text, chunkSize, overlap, cut);
    VisitStepsBack(|text|, 0, cut, chunkSize, overlap);
  }

  /** Each window starts strictly after the one before it: the loop always advances. */
  lemma WindowsAdvance(text: string, chunkSize: int, overlap: int)
    requires Progresses(chunkSize, overlap)
    ensures var ws := Windows(text, chunkSize, overlap);
      forall i :: 0 <= i < |ws| - 1 ==> ws[i].start < ws[i + 1].start
  {
    var ws := Windows(text, chunkSize, overlap);
    var cut := ChooseCutRule(text, chunkSize, overlap);
    ChosenWindows(text, chunkSize, overlap, cut);
    VisitCuts(|text|, 0, cut, chunkSize, overlap);
    VisitStepsBack(|text|, 0, cut, chunkSize, overlap);
    forall i | 0 <= i < |ws| - 1 ensures ws[i].start < ws[i + 1].start {
      assert StepsBack(ws, i, overlap) && ws[i].end == cut(ws[i].start);
    }
  }

  /** With a non-negative overlap every character of the text lies in some window. */
  lemma WindowsCover(text: string, chunkSize: int, overlap: int)
    requires Progresses(chunkSize, overlap) && 0 <= overlap
    ensures forall k :: 0 <= k < |text| ==> Covered(Windows(text, chunkSize, overlap), k)
  {
    var cut := ChooseCutRule(text, chunkSize, overlap);
    ChosenWindows(text, chunkSize, overlap, cut);
    VisitCovers(|text|, 0, cut, chunkSize, overlap);
  }

  /** `c` is the stripped text of one of the windows `ws` and at least `minChunkSize` long. */
  predicate IsPieceOf(text: string, ws: seq<Window>, c: string, minChunkSize: int) {
    exists i :: 0 <= i < |ws| && Piece(text, ws[i]) == c && |c| >= minChunkSize
  }

  /** Keeping the long pieces of `ws` keeps exactly the long stripped texts of its windows. */
  lemma KeptPieces(text: string, ws: seq<Window>, minChunkSize: int)
    ensures forall c :: c in Kept(Pieces(text, ws), minChunkSize) <==> IsPieceOf(text, ws, c, minChunkSize)
  {
    var ps := Pieces(text, ws);
    KeptMembers(ps, minChunkSize);
    assert forall i :: 0 <= i < |ws| ==> ps[i] == Piece(text, ws[i]);
    forall c ensures LongPiece(ps, c, minChunkSize) <==> IsPieceOf(text, ws, c, minChunkSize) {
      if LongPiece(ps, c, minChunkSize) {
        var i :| 0 <= i < |ps| && ps[i] == c && |c| >= minChunkSize;
        assert Piece(text, ws[i]) == c;
      }
      if IsPieceOf(text, ws, c, minChunkSize) {
        var i :| 0 <= i < |ws| && Piece(text, ws[i]) == c && |c| >= minChunkSize;
        assert ps[i] == c;
      }
    }
  }

  /** A string is a chunk exactly when it is the stripped text of a visited window and long enough. */
  lemma ChunkMembers(text: string, chunkSize: int, overlap: int, minChunkSize: int)
    requires Progresses(chunkSize, overlap)
    ensures var ws := Windows(text, chunkSize, overlap);
      forall c :: c in Chunks(text, chunkSize, overlap, minChunkSize) <==> IsPieceOf(text, ws, c, minChunkSize)
  {
    KeptPieces(text, Windows(text, chunkSize, overlap), minChunkSize);
  }

  /** An empty text has no windows and no chunks. */
  lemma EmptyTextNoChunks(chunkSize: int, overlap: int, minChunkSize: int)
    requires Progresses(chunkSize, overlap)
    ensures Chunks([], chunkSize, overlap, minChunkSize) == []
  {
    WindowsEnds([], chunkSize, overlap);
  }

  /** The configured 1500/300 makes the loop progress. */
  lemma ConfiguredProgresses()
    ensures Progresses(ChunkSize, ChunkOverlap)
  {
  }

  /** One of the five patterns whose last occurrence `chunk_text` looks for. */
  predicate IsPattern(p: string) {
    p == "\n\n" || p == "\n[" || p == "\n(" || p == ". " || p == ".\n"
  }

  /**
   * When `j` is the greatest break past the threshold, the `rfind` of every
   * pattern lands at or before `j`, and at `j` for a pattern found there.
   */
  lemma RFindAtMost(chunk: string, p: string, chunkSize: int, j: int)
    requires 0 < chunkSize && IsPattern(p) && PastThreshold(j, chunkSize)
    requires forall k :: j < k && IsBreakAt(chunk, k) ==> !PastThreshold(k, chunkSize)
    ensures RFind(chunk, p) <= j
    ensures OccursAt(chunk, p, j) ==> RFind(chunk, p) == j
  {
    RFindIsLast(chunk, p);
    var r := RFind(chunk, p);
    if r > j {
      assert IsBreakAt(chunk, r);
    }
  }

  /**
   * With a break past the threshold, the cut lands just after the greatest one,
   * whichever pattern it belongs to: two characters after a paragraph break, one
   * after any other break.
   */
  lemma CutAtGreatestBreak(text: string, start: nat, chunkSize: int, j: int)
    requires 0 < chunkSize && start + chunkSize < |text|
    requires var chunk := text[start..start + chunkSize];
      IsBreakAt(chunk, j) && PastThreshold(j, chunkSize)
      && forall k :: j < k && IsBreakAt(chunk, k) ==> !PastThreshold(k, chunkSize)
    ensures CutEnd(text, start, chunkSize)
      == start + j + (if OccursAt(text[start..start + chunkSize], "\n\n", j) then 2 else 1)
  {
    var chunk := text[start..start + chunkSize];
    var cands := Candidates(chunk);
    var valid := AboveThreshold(cands, chunkSize);
    RFindAtMost(chunk, "\n\n", chunkSize, j);
    RFindAtMost(chunk, "\n[", chunkSize, j);
    RFindAtMost(chunk, "\n(", chunkSize, j);
    RFindAtMost(chunk, ". ", chunkSize, j);
    RFindAtMost(chunk, ".\n", chunkSize, j);
    assert forall b :: b in cands <==> b == cands[0] || b == cands[1] || b == cands[2] || b == cands[3] || b == cands[4];
    AboveThresholdMembers(cands, chunkSize);
    assert j in valid;
    MaxIsGreatest(valid);
    assert Max(valid) == j;
    if RFind(chunk, "\n\n") == j {
      RFindIsLast(chunk, "\n\n");
    }
  }

  /** With no break past the threshold, the window is cut at its full length. */
  lemma CutWithoutBreak(text: string, start: nat, chunkSize: int)
    requires 0 < chunkSize && start < |text|
    requires forall k :: IsBreakAt(Slice(text, start, start + chunkSize), k) ==> !PastThreshold(k, chunkSize)
    ensures CutEnd(text, start, chunkSize) == start + chunkSize
  {
    if start + chunkSize < |text| {
      var chunk := text[start..start + chunkSize];
      assert chunk == Slice(text, start, start + chunkSize);
      CandidatesAreBreaks(chunk);
      AboveThresholdNone(Candidates(chunk), chunkSize);
    }
  }

  /** Each of the five `rfind` results is -1 or the start of a break. */
  lemma CandidatesAreBreaks(chunk: string)
    ensures forall b :: b in Candidates(chunk) ==> b == -1 || IsBreakAt(chunk, b)
  {
    RFindIsLast(chunk, "\n\n");
    RFindIsLast(chunk, "\n[");
    RFindIsLast(chunk, "\n(");
    RFindIsLast(chunk, ". ");
    RFindIsLast(chunk, ".\n");
    var c := Candidates(chunk);
    assert forall b :: b in c ==> b == c[0] || b == c[1] || b == c[2] || b == c[3] || b == c[4];
  }
}
