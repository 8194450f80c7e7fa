/** Streaming with stop sequences: a small held-back window decides what scanning the whole output would. */
module StopStream {
  import opened Common

  predicate EndsWith(text: string, st: string) {
    |st| <= |text| && text[|text| - |st|..] == st
  }

  /** The last n characters of the text begin the k-th stop sequence without completing it. */
  predicate Begins(text: string, stops: seq<string>, k: nat, n: nat)
    requires k < |stops|
  {
    0 < n < |stops[k]| && n <= |text| && text[|text| - n..] == stops[k][..n]
  }

  predicate Overlaps(text: string, stops: seq<string>, n: nat) {
    exists k :: 0 <= k < |stops| && Begins(text, stops, k, n)
  }

  /** n is the length of the longest end of the text that is a proper beginning of some stop sequence. */
  ghost predicate IsHeld(text: string, stops: seq<string>, n: nat) {
    (n == 0 || Overlaps(text, stops, n)) && forall m: nat :: m > n ==> !Overlaps(text, stops, m)
  }

  predicate Stops(text: string, stops: seq<string>, k: nat)
    requires k < |stops|
  {
    |stops[k]| > 0 && EndsWith(text, stops[k])
  }

  /** The first listed stop sequence the text ends with, among the first n. */
  function FirstStop(text: string, stops: seq<string>, n: nat): (k: Option<nat>)
    requires n <= |stops|
    ensures k.Some? ==> k.value < n && Stops(text, stops, k.value)
    ensures forall j :: 0 <= j < (if k.Some? then k.value else n) ==> !Stops(text, stops, j)
  {
    if n == 0 then None
    else
      var k := FirstStop(text, stops, n - 1);
      if k.Some? then k else if Stops(text, stops, n - 1) then Some(n - 1) else None
  }

  function Stop(text: string, stops: seq<string>): Option<nat> {
    FirstStop(text, stops, |stops|)
  }

  // ---------- the two helpers of the loop ----------

  method MatchesAnyStopSuffix(text: string, stops: seq<string>) returns (length: Option<nat>)
    ensures length == match Stop(text, stops) case None => None case Some(k) => Some(|stops[k]|)
  {
    for k := 0 to |stops|
      invariant FirstStop(text, stops, k) == None
    {
      if |stops[k]| > 0 && EndsWith(text, stops[k]) {
        FirstStopIs(text, stops, k, |stops|);
        return Some(|stops[k]|);
      }
    }
    length := None;
  }

  lemma {:induction false} FirstStopIs(text: string, stops: seq<string>, k: nat, n: nat)
    requires k < n <= |stops| && Stops(text, stops, k) && FirstStop(text, stops, k) == None
    ensures FirstStop(text, stops, n) == Some(k)
  {
    if n > k + 1 { FirstStopIs(text, stops, k, n - 1); }
  }

  /** The longest proper beginning of one stop sequence that ends the text. */
  method LongestBeginning(text: string, stops: seq<string>, k: nat) returns (n: nat)
    requires k < |stops|
    ensures n == 0 || Begins(text, stops, k, n)
    ensures forall m: nat :: m > n ==> !Begins(text, stops, k, m)
  {
    n := if |stops[k]| > 0 then |stops[k]| - 1 else 0;
    while n > 0 && !(n <= |text| && EndsWith(text, stops[k][..n]))
      invariant n <= |stops[k]| && (|stops[k]| > 0 ==> n < |stops[k]|)
      invariant forall m: nat :: m > n ==> !Begins(text, stops, k, m)
    {
      n := n - 1;
    }
  }

  method LongestStopPrefixLen(text: string, stops: seq<string>) returns (n: nat)
    ensures IsHeld(text, stops, n)
  {
    n := 0;
    for k := 0 to |stops|
      invariant n == 0 || exists j :: 0 <= j < k && Begins(text, stops, j, n)
      invariant forall m: nat, j :: m > n && 0 <= j < k ==> !Begins(text, stops, j, m)
    {
      var longest := LongestBeginning(text, stops, k);
      if longest > n { n := longest; }
    }
  }

  // ---------- the window decides ----------

  lemma EndOfSum(whole: string, chunk: string, n: nat)
    requires n >= |chunk| && n - |chunk| <= |whole|
    ensures (whole + chunk)[|whole + chunk| - n..] == whole[|whole| - (n - |chunk|)..] + chunk
  {
  }

  /** What overlaps a stop sequence after the chunk overlapped it before, if it reaches further back than the chunk. */
  lemma OverlapBefore(whole: string, chunk: string, st: string, n: nat)
    requires n <= |whole + chunk| && n <= |st| && n > |chunk| && (whole + chunk)[|whole + chunk| - n..] == st[..n]
    ensures n - |chunk| <= |whole| && whole[|whole| - (n - |chunk|)..] == st[..n - |chunk|]
  {
    var m := n - |chunk|;
    EndOfSum(whole, chunk, n);
    var tail := whole[|whole| - m..];
    assert st[..n][..m] == st[..m];
    assert (tail + chunk)[..m] == tail;
  }

  /** An end of the whole text no longer than the window is an end of the window. */
  lemma EndOfWindow(delivered: string, window: string, n: nat)
    requires n <= |window|
    ensures (delivered + window)[|delivered + window| - n..] == window[|window| - n..]
  {
  }

  /** No beginning of a stop sequence reaches back beyond the window. */
  lemma OverlapFits(delivered: string, pending: string, chunk: string, stops: seq<string>, k: nat, n: nat)
    requires IsHeld(delivered + pending, stops, |pending|) && k < |stops| && Begins(delivered + pending + chunk, stops, k, n)
    ensures n <= |pending| + |chunk|
  {
    if n > |chunk| {
      OverlapBefore(delivered + pending, chunk, stops[k], n);
      assert stops[k][..n][..n - |chunk|] == stops[k][..n - |chunk|];
      assert Begins(delivered + pending, stops, k, n - |chunk|);
      assert Overlaps(delivered + pending, stops, n - |chunk|);
    }
  }

  /** The held-back length computed on the window is that of the whole output. */
  lemma WindowHeld(delivered: string, pending: string, chunk: string, stops: seq<string>, n: nat)
    requires IsHeld(delivered + pending, stops, |pending|) && IsHeld(pending + chunk, stops, n)
    ensures IsHeld(delivered + pending + chunk, stops, n) && n <= |pending| + |chunk|
  {
    var whole, window := delivered + pending + chunk, pending + chunk;
    assert whole == delivered + window;
    if n > 0 {
      var k :| 0 <= k < |stops| && Begins(window, stops, k, n);
      EndOfWindow(delivered, window, n);
      assert Begins(whole, stops, k, n);
    }
    forall m: nat | m > n ensures !Overlaps(whole, stops, m) {
      forall k | 0 <= k < |stops| ensures !Begins(whole, stops, k, m) {
        BeginsInWindow(delivered, pending, chunk, stops, k, m);
        assert !Overlaps(window, stops, m);
      }
    }
  }

  lemma BeginsInWindow(delivered: string, pending: string, chunk: string, stops: seq<string>, k: nat, n: nat)
    requires IsHeld(delivered + pending, stops, |pending|) && k < |stops|
    ensures Begins(delivered + pending + chunk, stops, k, n) ==> Begins(pending + chunk, stops, k, n)
  {
    if Begins(delivered + pending + chunk, stops, k, n) {
      OverlapFits(delivered, pending, chunk, stops, k, n);
      assert delivered + pending + chunk == delivered + (pending + chunk);
      EndOfWindow(delivered, pending + chunk, n);
    }
  }

  /** A stop sequence that ends the whole output ends the window, and the other way round. */
  lemma StopInWindow(delivered: string, pending: string, chunk: string, stops: seq<string>, k: nat)
    requires IsHeld(delivered + pending, stops, |pending|) && k < |stops| && !Stops(delivered + pending, stops, k)
    ensures Stops(delivered + pending + chunk, stops, k) <==> Stops(pending + chunk, stops, k)
  {
    var st, whole, window := stops[k], delivered + pending + chunk, pending + chunk;
    assert whole == delivered + window;
    if |st| <= |window| {
      EndOfWindow(delivered, window, |st|);
    } else if Stops(whole, stops, k) {
      StopReachesBack(delivered + pending, chunk, stops, k);
    }
  }

  /** A stop sequence completed by the chunk was begun before it. */
  lemma StopReachesBack(whole: string, chunk: string, stops: seq<string>, k: nat)
    requires k < |stops| && Stops(whole + chunk, stops, k) && |stops[k]| > |chunk|
    ensures if |chunk| == 0 then Stops(whole, stops, k) else Overlaps(whole, stops, |stops[k]| - |chunk|)
  {
    var st := stops[k];
    assert st[..|st|] == st;
    OverlapBefore(whole, chunk, st, |st|);
    if |chunk| > 0 {
      assert Begins(whole, stops, k, |st| - |chunk|);
    } else {
      assert whole + chunk == whole;
    }
  }

  predicate NoStop(text: string, stops: seq<string>) {
    forall k :: 0 <= k < |stops| ==> !Stops(text, stops, k)
  }

  /** The window ends with a stop sequence exactly when the whole output does, and with the same first listed one. */
  lemma {:induction false} WindowStop(delivered: string, pending: string, chunk: string, stops: seq<string>, n: nat)
    requires IsHeld(delivered + pending, stops, |pending|) && NoStop(delivered + pending, stops) && n <= |stops|
    ensures FirstStop(pending + chunk, stops, n) == FirstStop(delivered + pending + chunk, stops, n)
  {
    if n > 0 {
      WindowStop(delivered, pending, chunk, stops, n - 1);
      StopInWindow(delivered, pending, chunk, stops, n - 1);
    }
  }

  // ---------- the streaming loop ----------

  /** How the generation loop ended: on a stop sequence, because the receiver declined, or by itself. */
  datatype Outcome = Stopped | Declined | Ended

  /** The text without the stop sequence it ends with, if any. */
  function Trimmed(text: string, stops: seq<string>): string {
    match Stop(text, stops)
    case None => text
    case Some(k) => text[..|text| - |stops[k]|]
  }

  /** All text is either delivered or pending, and pending is exactly what must be held back. */
  ghost predicate Streaming(text: string, deliveries: seq<string>, pending: string, stops: seq<string>) {
    && Joined(deliveries) + pending == text
    && NoStop(text, stops) && IsHeld(text, stops, |pending|)
  }

  lemma Deliver(deliveries: seq<string>, text: string)
    ensures Joined(deliveries + [text]) == Joined(deliveries) + text
  {
    assert (deliveries + [text])[..|deliveries|] == deliveries;
  }

  /** Delivering a text only when there is one. */
  method Emit(deliveries: seq<string>, text: string) returns (more: seq<string>)
    ensures Joined(more) == Joined(deliveries) + text
    ensures more == if |text| > 0 then deliveries + [text] else deliveries
  {
    more := deliveries;
    if |text| > 0 {
      Deliver(deliveries, text);
      more := deliveries + [text];
    }
  }

  /** Holding back by the window is holding back by the whole text. */
  ghost predicate HeldAlike(window: string, text: string, stops: seq<string>) {
    forall n: nat :: IsHeld(window, stops, n) ==> IsHeld(text, stops, n) && n <= |window|
  }

  /** The longest text that can never be part of a stop sequence goes out. */
  method HoldBack(deliveries: seq<string>, window: string, stops: seq<string>, ghost text: string)
    returns (more: seq<string>, pending: string)
    requires Joined(deliveries) + window == text && NoStop(text, stops)
    requires HeldAlike(window, text, stops)
    ensures Streaming(text, more, pending, stops)
  {
    var n := LongestStopPrefixLen(window, stops);
    more := Emit(deliveries, window[..|window| - n]);
    pending := window[|window| - n..];
  }

  lemma StopFits(text: string, stops: seq<string>)
    ensures Stop(text, stops).Some? ==> |stops[Stop(text, stops).value]| <= |text|
  {
  }

  lemma NoStopIff(text: string, stops: seq<string>)
    ensures NoStop(text, stops) <==> Stop(text, stops) == None
  {
  }

  lemma NothingYet(stops: seq<string>)
    ensures Streaming("", [], "", stops)
  {
  }

  /** What the windows of one step say about the whole output. */
  lemma StepWindow(text: string, deliveries: seq<string>, pending: string, chunk: string, stops: seq<string>)
    requires Streaming(text, deliveries, pending, stops)
    ensures Joined(deliveries) + (pending + chunk) == text + chunk
    ensures Stop(pending + chunk, stops) == Stop(text + chunk, stops)
    ensures HeldAlike(pending + chunk, text + chunk, stops)
  {
    var delivered := Joined(deliveries);
    WindowStop(delivered, pending, chunk, stops, |stops|);
    forall n: nat | IsHeld(pending + chunk, stops, n) ensures IsHeld(text + chunk, stops, n) && n <= |pending + chunk| {
      WindowHeld(delivered, pending, chunk, stops, n);
    }
  }

  /** Cutting the stop sequence off the window cuts it off the whole output. */
  lemma TrimmedWindow(delivered: string, window: string, text: string, stops: seq<string>)
    requires delivered + window == text && Stop(window, stops) == Stop(text, stops)
    ensures delivered + Trimmed(window, stops) == Trimmed(text, stops)
  {
    StopFits(window, stops);
  }

  /** The generation loop over the decoded chunks, then the flush of the decoder; keep(i) is the receiver's answer at step i. */
  method Stream(chunks: seq<string>, flushed: string, stops: seq<string>, keep: nat -> bool)
    returns (deliveries: seq<string>, steps: nat, outcome: Outcome)
    ensures steps <= |chunks| && forall i :: 0 <= i < steps ==> NoStop(Joined(chunks[..i]), stops)
    ensures outcome.Ended? ==> steps == |chunks|
    ensures outcome.Declined? ==> steps > 0 && !keep(steps - 1)
    ensures outcome.Stopped? ==> Stop(Joined(chunks[..steps]), stops).Some?
    ensures outcome.Stopped? ==> Joined(deliveries) == Trimmed(Joined(chunks[..steps]), stops) + Trimmed(flushed, stops)
    ensures !outcome.Stopped? ==> NoStop(Joined(chunks[..steps]), stops)
    ensures !outcome.Stopped? ==> Joined(deliveries) == Trimmed(Joined(chunks[..steps]) + flushed, stops)
  {
    var pending;
    deliveries, pending, steps, outcome := Generate(chunks, stops, keep);
    if outcome.Stopped? {
      assert "" + flushed == flushed;
    } else {
      FlushWindow(Joined(chunks[..steps]), deliveries, pending, flushed, stops);
    }
    deliveries := Flush(deliveries, pending, flushed, stops);
  }

  /** The generation loop. */
  method Generate(chunks: seq<string>, stops: seq<string>, keep: nat -> bool)
    returns (deliveries: seq<string>, pending: string, steps: nat, outcome: Outcome)
    ensures steps <= |chunks| && forall i :: 0 <= i < steps ==> NoStop(Joined(chunks[..i]), stops)
    ensures outcome.Ended? ==> steps == |chunks|
    ensures outcome.Declined? ==> steps > 0 && !keep(steps - 1)
    ensures outcome.Stopped? ==> Stop(Joined(chunks[..steps]), stops).Some?
    ensures outcome.Stopped? ==> Joined(deliveries) == Trimmed(Joined(chunks[..steps]), stops) && pending == ""
    ensures !outcome.Stopped? ==> Streaming(Joined(chunks[..steps]), deliveries, pending, stops)
  {
    deliveries, pending, steps, outcome := [], "", 0, Ended;
    ghost var text := "";
    NothingYet(stops);
    var i := 0;
    while i < |chunks|
      invariant i <= |chunks| && steps == i && text == Joined(chunks[..i]) && Streaming(text, deliveries, pending, stops)
      invariant forall j :: 0 <= j < i ==> NoStop(Joined(chunks[..j]), stops)
    {
      JoinedNext(chunks, i);
      var stopped, emitted;
      ghost var next := text + chunks[i];
      stopped, emitted, deliveries, pending := Step(text, deliveries, pending, chunks[i], stops, next);
      i, steps, text := i + 1, i + 1, next;
      if stopped {
        outcome := Stopped;
        return;
      }
      if emitted && !keep(i - 1) {
        outcome := Declined;
        return;
      }
    }
  }

  lemma JoinedNext(chunks: seq<string>, i: nat)
    requires i < |chunks|
    ensures Joined(chunks[..i + 1]) == Joined(chunks[..i]) + chunks[i]
  {
    assert chunks[..i + 1][..i] == chunks[..i];
  }

  /** One decoded chunk: a stop sequence, or the part that can go out. */
  method Step(ghost text: string, deliveries: seq<string>, pending: string, chunk: string, stops: seq<string>, ghost next: string)
    returns (stopped: bool, emitted: bool, more: seq<string>, rest: string)
    requires Streaming(text, deliveries, pending, stops) && next == text + chunk
    ensures NoStop(text, stops) && stopped == Stop(next, stops).Some?
    ensures stopped ==> Joined(more) == Trimmed(next, stops) && rest == ""
    ensures !stopped ==> Streaming(next, more, rest, stops)
  {
    var window := pending + chunk;
    StepWindow(text, deliveries, pending, chunk, stops);
    var matched := MatchesAnyStopSuffix(window, stops);
    NoStopIff(text + chunk, stops);
    match matched {
      case Some(length) =>
        StopFits(window, stops);
        TrimmedWindow(Joined(deliveries), window, text + chunk, stops);
        more := Emit(deliveries, window[..|window| - length]);
        stopped, rest := true, "";
      case None =>
        stopped := false;
        more, rest := HoldBack(deliveries, window, stops, text + chunk);
    }
    emitted := |more| > |deliveries|;
  }

  lemma FlushWindow(text: string, deliveries: seq<string>, pending: string, flushed: string, stops: seq<string>)
    requires Streaming(text, deliveries, pending, stops)
    ensures Joined(deliveries) + Trimmed(pending + flushed, stops) == Trimmed(text + flushed, stops)
  {
    StepWindow(text, deliveries, pending, flushed, stops);
    TrimmedWindow(Joined(deliveries), pending + flushed, text + flushed, stops);
  }

  /** The end of the stream: the decoder's last bytes join what is pending, and a stop sequence at its end is cut. */
  method Flush(deliveries: seq<string>, pending: string, flushed: string, stops: seq<string>) returns (more: seq<string>)
    ensures Joined(more) == Joined(deliveries) + Trimmed(pending + flushed, stops)
  {
    var text := pending + flushed;
    if |text| > 0 {
      var matched := MatchesAnyStopSuffix(text, stops);
      StopFits(text, stops);
      if matched.Some? { text := text[..|text| - matched.value]; }
    } else {
      EmptyText(stops, |stops|);
    }
    more := Emit(deliveries, text);
  }

  lemma {:induction false} EmptyText(stops: seq<string>, n: nat)
    requires n <= |stops|
    ensures FirstStop("", stops, n) == None
  {
    if n > 0 { EmptyText(stops, n - 1); }
  }
}
