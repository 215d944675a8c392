/** Rewriting the generated block of a document (scripts/sync_docs.py). */
module SyncDocs {
  import opened Common

  const BEGIN: string := "<" + "!-- BEGIN:headline-latency -->"
  const END: string := "<" + "!-- END:headline-latency -->"
  const NOTICE: string := "<" + ("!-- Generated by scripts/sync_docs.py; " + "edits here are overwritten. -->")

  datatype Error = NoBlock | EndBeforeBegin

  // ------------------------------------------------------------------- str.find

  predicate OccursAt(text: string, s: string, i: nat) {
    i + |s| <= |text| && text[i..i + |s|] == s
  }

  predicate Contains(text: string, s: string) {
    exists i: nat :: i <= |text| && OccursAt(text, s, i)
  }

  /** `i` is where `s` first occurs. */
  ghost predicate FirstAt(text: string, s: string, i: nat) {
    OccursAt(text, s, i) && forall j: nat | j < i :: !OccursAt(text, s, j)
  }

  function FindFrom(text: string, s: string, i: nat): (r: Option<nat>)
    requires i <= |text|
    ensures r.Some? ==> i <= r.value && OccursAt(text, s, r.value)
    ensures forall j: nat | i <= j && (r.Some? ==> j < r.value) :: !OccursAt(text, s, j)
    decreases |text| - i
  {
    if OccursAt(text, s, i) then Some(i)
    else if i == |text| then None
    else FindFrom(text, s, i + 1)
  }

  function Find(text: string, s: string): (r: Option<nat>)
    ensures r.Some? <==> Contains(text, s)
    ensures r.Some? ==> FirstAt(text, s, r.value)
  {
    FindFrom(text, s, 0)
  }

  lemma FirstIsFound(text: string, s: string, i: nat)
    requires FirstAt(text, s, i)
    ensures Find(text, s) == Some(i)
  {
    assert Contains(text, s);
    var r := Find(text, s);
    assert r.value <= i && i <= r.value;
  }

  // ---------------------------------------------------------------- apply_block

  /** Everything between the markers. */
  function Middle(block: string): string {
    "\n" + NOTICE + "\n\n" + block + "\n\n"
  }

  /** Both markers occur, the first END not before the first BEGIN. */
  predicate Ordered(text: string) {
    Find(text, BEGIN).Some? && Find(text, END).Some? && Find(text, BEGIN).value <= Find(text, END).value
  }

  function ApplyBlock(text: string, block: string): (r: Result<string, Error>)
    ensures r.Ok? <==> Ordered(text)
    ensures r == Err(NoBlock) <==> !Contains(text, BEGIN) || !Contains(text, END)
  {
    var start := Find(text, BEGIN);
    var stop := Find(text, END);
    if start.None? || stop.None? then Err(NoBlock)
    else if stop.value < start.value then Err(EndBeforeBegin)
    else Ok(text[..start.value + |BEGIN|] + Middle(block) + text[stop.value..])
  }

  // ----------------------------------------------------------------- the markers

  /** Each marker opens with its only '<' and stays on one line. */
  ghost predicate OpensOnce(s: string) {
    s != [] && s[0] == '<' && Plain(s[1..])
  }

  predicate Plain(s: string) {
    '<' !in s && '\n' !in s
  }

  lemma OpensOnceAt(s: string, k: nat)
    requires OpensOnce(s) && k < |s|
    ensures s[k] != '\n' && (s[k] == '<' <==> k == 0)
  {
    assert k > 0 ==> s[k] == s[1..][k - 1];
  }

  lemma Opens(rest: string)
    requires Plain(rest)
    ensures OpensOnce("<" + rest)
  {
    assert ("<" + rest)[1..] == rest;
  }

  lemma BeginShape()
    ensures OpensOnce(BEGIN) && |BEGIN| > 5 && BEGIN[5] == 'B'
  {
    Opens("!-- BEGIN:headline-latency -->");
  }

  lemma EndShape()
    ensures OpensOnce(END) && |END| > 5 && END[5] == 'E'
  {
    Opens("!-- END:headline-latency -->");
  }

  lemma NoticeStart()
    ensures Plain("!-- Generated by scripts/sync_docs.py; ")
  {
  }

  lemma NoticeRest()
    ensures Plain("edits here are overwritten. -->")
  {
  }

  lemma NoticeShape()
    ensures OpensOnce(NOTICE) && |NOTICE| > 5 && NOTICE[5] == 'G'
  {
    hide Plain, OpensOnce;
    var a, b := "!-- Generated by scripts/sync_docs.py; ", "edits here are overwritten. -->";
    NoticeStart();
    NoticeRest();
    PlainConcat(a, b);
    Opens(a + b);
    assert a[4] == 'G';
    assert NOTICE[5] == (a + b)[4] == a[4];
  }

  lemma PlainConcat(a: string, b: string)
    requires Plain(a) && Plain(b)
    ensures Plain(a + b)
  {
  }

  /** An occurrence covers only characters of the pattern. */
  lemma Covers(text: string, s: string, i: nat, j: nat)
    requires OccursAt(text, s, i) && i <= j < i + |s|
    ensures text[j] == s[j - i]
  {
    assert text[i..i + |s|][j - i] == text[j];
  }

  /** Occurrences within a piece of the text are occurrences in the piece. */
  lemma InPiece(before: string, piece: string, after: string, s: string, i: nat)
    requires i + |s| <= |piece|
    ensures OccursAt(before + piece + after, s, |before| + i) <==> OccursAt(piece, s, i)
  {
    var text := before + piece + after;
    assert text[|before| + i..|before| + i + |s|] == piece[i..i + |s|];
  }

  /** The first END after BEGIN starts after BEGIN ends. */
  lemma MarkersApart(text: string, start: nat, stop: nat)
    requires OccursAt(text, BEGIN, start) && OccursAt(text, END, stop) && start <= stop
    ensures start + |BEGIN| <= stop
  {
    hide BEGIN, END, OpensOnce;
    BeginShape();
    EndShape();
    if stop < start + |BEGIN| {
      OpensOnceAt(BEGIN, stop - start);
      OpensOnceAt(END, 0);
      Covers(text, BEGIN, start, stop);
      Covers(text, END, stop, stop);
      Covers(text, BEGIN, start, start + 5);
      Covers(text, END, stop, stop + 5);
    }
  }

  /** Two pieces joined by a newline contain a one-line pattern only inside one of them. */
  lemma NotAcrossNewline(left: string, right: string, s: string, i: nat)
    requires OpensOnce(s)
    requires OccursAt(left + "\n" + right, s, i)
    ensures i + |s| <= |left| || |left| + 1 <= i
    ensures i + |s| <= |left| ==> OccursAt(left, s, i)
    ensures |left| + 1 <= i ==> OccursAt(right, s, i - |left| - 1)
  {
    var text := left + "\n" + right;
    if i <= |left| < i + |s| {
      OpensOnceAt(s, |left| - i);
      Covers(text, s, i, |left|);
    }
    if i + |s| <= |left| {
      InPiece([], left, "\n" + right, s, i);
      assert [] + left + ("\n" + right) == text;
    } else {
      InPiece(left + "\n", right, [], s, i - |left| - 1);
      assert (left + "\n") + right + [] == text;
    }
  }

  // ---------------------------------------------------------------- its effect

  /** The rewritten text, given where the markers were. */
  function Rewritten(head: string, block: string, tail: string): string {
    head + Middle(block) + tail
  }

  /** Text up to and including its first BEGIN, in which no END occurs. */
  ghost predicate GoodHead(head: string) {
    && |BEGIN| <= |head|
    && FirstAt(head, BEGIN, |head| - |BEGIN|)
    && !Contains(head, END)
  }

  ghost predicate GoodTail(tail: string) {
    OccursAt(tail, END, 0)
  }

  /** A document with ordered markers is a good head, some text, and a good tail. */
  lemma SplitsAtMarkers(text: string, start: nat, stop: nat)
    requires FirstAt(text, BEGIN, start) && FirstAt(text, END, stop) && start <= stop
    ensures start + |BEGIN| <= stop <= |text|
    ensures GoodHead(text[..start + |BEGIN|]) && GoodTail(text[stop..])
  {
    hide BEGIN, END, OccursAt;
    assert start + |BEGIN| <= stop <= |text| by {
      MarkersApart(text, start, stop);
      OccursWithin(text, BEGIN, start);
      OccursWithin(text, END, stop);
    }
    var head := text[..start + |BEGIN|];
    var rest := text[start + |BEGIN|..];
    assert text == [] + head + rest;
    forall i: nat | i + |BEGIN| <= |head| ensures OccursAt(head, BEGIN, i) <==> OccursAt(text, BEGIN, i) {
      InPiece([], head, rest, BEGIN, i);
    }
    forall i: nat ensures !OccursAt(head, END, i) {
      if OccursAt(head, END, i) {
        OccursWithin(head, END, i);
        EndShape();
        InPiece([], head, rest, END, i);
      }
    }
    SuffixOccurs(text, END, stop);
  }

  lemma OccursWithin(text: string, s: string, i: nat)
    requires OccursAt(text, s, i)
    ensures i + |s| <= |text|
  {
  }

  lemma SuffixOccurs(text: string, s: string, i: nat)
    requires OccursAt(text, s, i)
    ensures OccursAt(text[i..], s, 0)
  {
    assert text[i..][0..|s|] == text[i..i + |s|];
  }

  lemma FirstInPrefix(head: string, rest: string, s: string, k: nat)
    requires FirstAt(head, s, k)
    ensures FirstAt(head + rest, s, k)
  {
    OccursWithin(head, s, k);
    hide OccursAt;
    assert [] + head + rest == head + rest;
    forall i: nat | i <= k ensures OccursAt(head + rest, s, i) <==> OccursAt(head, s, i) {
      InPiece([], head, rest, s, i);
    }
  }

  /** In the rewritten text BEGIN is first found where it was. */
  lemma BeginStays(head: string, rest: string)
    requires GoodHead(head)
    ensures Find(head + rest, BEGIN) == Some(|head| - |BEGIN|)
  {
    hide BEGIN, END, FirstAt, OccursAt, Contains, Find;
    FirstInPrefix(head, rest, BEGIN, |head| - |BEGIN|);
    FirstIsFound(head + rest, BEGIN, |head| - |BEGIN|);
  }

  lemma HeadHasNoEnd(head: string, i: nat)
    requires GoodHead(head)
    ensures !OccursAt(head, END, i)
  {
    hide BEGIN, END;
    if OccursAt(head, END, i) {
      OccursWithin(head, END, i);
    }
  }

  lemma JoinedByNewlines(head: string, block: string, tail: string)
    ensures Rewritten(head, block, tail)
         == head + "\n" + (NOTICE + "\n" + ([] + "\n" + (block + "\n" + ("\n" + tail))))
    ensures |Middle(block)| == |NOTICE| + |block| + 5
  {
    hide NOTICE;
  }

  /** Neither the head, nor the notice, nor a join contributes an END: only the block can. */
  lemma EndOnlyInBlock(head: string, block: string, tail: string, i: nat)
    requires GoodHead(head) && i < |head + Middle(block)|
    requires OccursAt(Rewritten(head, block, tail), END, i)
    ensures var o := |head| + |NOTICE| + 3; o <= i && OccursAt(block, END, i - o)
  {
    hide BEGIN, END, NOTICE, OpensOnce, OccursAt, GoodHead;
    EndShape();
    OpensOnceAt(END, 0);
    var rest3 := block + "\n" + ("\n" + tail);
    var rest2 := [] + "\n" + rest3;
    var rest1 := NOTICE + "\n" + rest2;
    JoinedByNewlines(head, block, tail);
    hide Rewritten, Middle;
    NotAcrossNewline(head, rest1, END, i);
    HeadHasNoEnd(head, i);
    var i1 := i - |head| - 1;
    NotAcrossNewline(NOTICE, rest2, END, i1);
    NoticeHasNoEnd();
    var i2: nat := i1 - |NOTICE| - 1;
    NotAcrossNewline([], rest3, END, i2);
    var i3: nat := i2 - 1;
    NotAcrossNewline(block, "\n" + tail, END, i3);
  }

  lemma NoticeHasNoEnd()
    ensures forall i: nat :: !OccursAt(NOTICE, END, i)
  {
    hide BEGIN, END, NOTICE, OpensOnce;
    EndShape();
    NoticeShape();
    forall i: nat ensures !OccursAt(NOTICE, END, i) {
      if OccursAt(NOTICE, END, i) {
        Covers(NOTICE, END, i, i);
        Covers(NOTICE, END, i, i + 5);
        OpensOnceAt(END, 0);
        OpensOnceAt(NOTICE, i);
      }
    }
  }

  /** With an END-free block the rewritten text is split at the same places again. */
  lemma MarkersStay(head: string, block: string, tail: string)
    requires GoodHead(head) && GoodTail(tail) && !Contains(block, END)
    ensures Find(Rewritten(head, block, tail), BEGIN) == Some(|head| - |BEGIN|)
    ensures Find(Rewritten(head, block, tail), END) == Some(|head + Middle(block)|)
  {
    hide BEGIN, END, NOTICE;
    var text := Rewritten(head, block, tail);
    assert text == head + (Middle(block) + tail);
    BeginStays(head, Middle(block) + tail);
    var stop := |head + Middle(block)|;
    forall i: nat | i < stop ensures !OccursAt(text, END, i) {
      if OccursAt(text, END, i) {
        EndOnlyInBlock(head, block, tail, i);
      }
    }
    assert text[stop..stop + |END|] == tail[0..|END|];
    FirstIsFound(text, END, stop);
  }

  /** With an END in the block, that is where the next rewrite thinks the block stops. */
  lemma EndInBlockIsFound(head: string, block: string, tail: string)
    requires GoodHead(head) && Contains(block, END)
    ensures Find(Rewritten(head, block, tail), BEGIN) == Some(|head| - |BEGIN|)
    ensures var stop := Find(Rewritten(head, block, tail), END);
      stop.Some? && |head| <= stop.value < |head + Middle(block)|
  {
    hide BEGIN, END, NOTICE, OccursAt;
    var text := Rewritten(head, block, tail);
    assert text == head + (Middle(block) + tail);
    BeginStays(head, Middle(block) + tail);
    var i: nat :| i <= |block| && OccursAt(block, END, i);
    OccursWithin(block, END, i);
    var before := head + "\n" + NOTICE + "\n\n";
    assert text == before + block + ("\n\n" + tail);
    InPiece(before, block, "\n\n" + tail, END, i);
    FoundBy(text, END, |before| + i);
    EndOnlyInBlock(head, block, tail, Find(text, END).value);
  }

  lemma FoundBy(text: string, s: string, i: nat)
    requires OccursAt(text, s, i)
    ensures Find(text, s).Some? && Find(text, s).value <= i
  {
    assert Contains(text, s);
  }

  /** What apply_block returns when the markers were found at the given places. */
  lemma AppliedAt(text: string, block: string, start: nat, stop: nat)
    requires Find(text, BEGIN) == Some(start) && Find(text, END) == Some(stop) && start <= stop
    ensures start + |BEGIN| <= |text| && stop <= |text|
    ensures ApplyBlock(text, block) == Ok(text[..start + |BEGIN|] + Middle(block) + text[stop..])
  {
  }

  /** The document around the block is untouched, and is found untouched by the next rewrite. */
  lemma OnlyTheBlockChanges(text: string, block: string, start: nat, stop: nat)
    requires Find(text, BEGIN) == Some(start) && Find(text, END) == Some(stop) && start <= stop
    requires !Contains(block, END)
    ensures start + |BEGIN| <= stop <= |text|
    ensures var head := text[..start + |BEGIN|];
      var r := head + Middle(block) + text[stop..];
      && ApplyBlock(text, block) == Ok(r)
      && Find(r, BEGIN) == Some(start)
      && Find(r, END) == Some(|head + Middle(block)|)
  {
    hide BEGIN, END, NOTICE, OccursAt, ApplyBlock, Middle;
    SplitsAtMarkers(text, start, stop);
    AppliedAt(text, block, start, stop);
    MarkersStay(text[..start + |BEGIN|], block, text[stop..]);
  }

  /** What is read back between the markers of the result: the notice and then the block, letter by letter. */
  lemma BlockReadsBack(text: string, block: string)
    requires Ordered(text) && !Contains(block, END)
    ensures ApplyBlock(text, block).Ok?
    ensures var r := ApplyBlock(text, block).value;
      && Find(r, BEGIN).Some? && Find(r, END).Some?
      && var from := Find(r, BEGIN).value + |BEGIN|;
         var to := Find(r, END).value;
         && from + |NOTICE| + 3 <= to - 2 <= |r|
         && r[from..from + |NOTICE| + 3] == "\n" + NOTICE + "\n\n"
         && r[from + |NOTICE| + 3..to - 2] == block && r[to - 2..to] == "\n\n"
  {
    hide BEGIN, END, NOTICE, OccursAt;
    var start, stop := Find(text, BEGIN).value, Find(text, END).value;
    OnlyTheBlockChanges(text, block, start, stop);
    var head := text[..start + |BEGIN|];
    var r := head + Middle(block) + text[stop..];
    assert r[|head|..|head + Middle(block)|] == Middle(block);
  }

  /** A second rewrite of an already rewritten text. */
  lemma RewriteAgain(head: string, first: string, second: string, tail: string)
    requires GoodHead(head) && GoodTail(tail)
    ensures ApplyBlock(Rewritten(head, first, tail), second) == Ok(Rewritten(head, second, tail))
       <==> !Contains(first, END)
  {
    hide BEGIN, END, NOTICE, OccursAt, ApplyBlock, Middle, GoodTail;
    var once := Rewritten(head, first, tail);
    assert once[..|head|] == head;
    var stop := |head + Middle(first)|;
    assert once[stop..] == tail;
    HeadHasBegin(head);
    if Contains(first, END) {
      EndInBlockIsFound(head, first, tail);
      AppliedAt(once, second, |head| - |BEGIN|, Find(once, END).value);
      assert |ApplyBlock(once, second).value| > |Rewritten(head, second, tail)|;
    } else {
      MarkersStay(head, first, tail);
      AppliedAt(once, second, |head| - |BEGIN|, stop);
    }
  }

  lemma HeadHasBegin(head: string)
    requires GoodHead(head)
    ensures |BEGIN| <= |head|
  {
  }

  /**
    Rewriting with `first` and then with `second` is rewriting with `second`, for
    every document with ordered markers, exactly when `first` contains no END.
   */
  lemma LastWriteWins(text: string, first: string, second: string)
    requires Ordered(text)
    ensures ApplyBlock(text, first).Ok?
    ensures ApplyBlock(ApplyBlock(text, first).value, second) == ApplyBlock(text, second)
       <==> !Contains(first, END)
  {
    hide BEGIN, END, NOTICE, OccursAt, ApplyBlock, Middle;
    var start := Find(text, BEGIN).value;
    var stop := Find(text, END).value;
    SplitsAtMarkers(text, start, stop);
    AppliedAt(text, first, start, stop);
    AppliedAt(text, second, start, stop);
    RewriteAgain(text[..start + |BEGIN|], first, second, text[stop..]);
  }

  /** Once written, a document is current: --check finds nothing stale. */
  lemma Idempotent(text: string, block: string)
    requires Ordered(text) && !Contains(block, END)
    ensures ApplyBlock(text, block).Ok?
    ensures ApplyBlock(ApplyBlock(text, block).value, block) == ApplyBlock(text, block)
  {
    LastWriteWins(text, block, block);
  }
}
