// The per-command output demultiplexer of `LitProcess::handle_command`
// (src/process.rs): after the prompt is written, stdout is read chunk by
// chunk into `buffer`; every time the text grows, only the new suffix beyond
// `last_chunk` is sent to the caller; the command ends when the text ends
// with `>>>` or contains "\n>>>".
//
// The child's stdout is a finite script of read results; `Chunk([])` is the
// 0-byte read (end of file).  The caller's receiver is either listening for
// good or is dropped after it has taken `limit` items; a send to a dropped
// receiver fails.  Decoding is the identity: one byte is one character.

module Demux {
  import opened Base
  import opened Text

  /** One `stdout.read(temp_buf)`: `Ok(n)` with its bytes, or `Err(e)`. */
  datatype ReadResult = Chunk(bytes: string) | ReadError(msg: string)

  /** One item on a command's response channel: `Ok(token)` or `Err(e)`. */
  datatype Item = Token(text: string) | Failure(msg: string)

  /** The receiving end of a command's response channel. */
  datatype Receiver = Listening | DropsAfter(limit: nat)

  /**
   * How the read loop ended: the marker was seen, the pipe died (EOF or read
   * error), a send found the receiver gone, or the script ran out while the
   * loop was still waiting for output (the real loop would block there).
   */
  datatype Outcome = Finished | Failed | Abandoned | Blocked

  /** Where the loop stopped (index of the next unread result), what it left
      in `buffer`, and the items the receiver got. */
  datatype Run = Run(next: nat, buffer: string, sent: seq<Item>, outcome: Outcome)

  const Marker: string := ">>>"
  const ClosedMessage: string := "Process stdout closed"

  /** A read that delivered at least one byte. */
  predicate IsLive(r: ReadResult) {
    r.Chunk? && r.bytes != []
  }

  /** The error sent for a read that ends the command (EOF or read error). */
  function DeathReason(r: ReadResult): string {
    if r.ReadError? then r.msg else ClosedMessage
  }

  function ChunkBytes(r: ReadResult): string {
    if r.Chunk? then r.bytes else []
  }

  predicate Accepts(rx: Receiver, delivered: nat) {
    rx.Listening? || delivered < rx.limit
  }

  /** `let _ = response_tx.send(item).await`: the item reaches the receiver
      only if it is still there. */
  function Send(rx: Receiver, sent: seq<Item>, item: Item): seq<Item> {
    if Accepts(rx, |sent|) then sent + [item] else sent
  }

  /** The test at src/process.rs:229. */
  predicate IsTerminal(text: string) {
    EndsWith(text, Marker) || Contains(text, "\n>>>")
  }

  /** `text.trim_end_matches(">>>").trim_end_matches('\n')`: a prefix of the text. */
  function FinalText(text: string): (r: string)
    ensures IsPrefix(r, text)
  {
    TrimEnd(TrimEnd(text, Marker), "\n")
  }

  /**
   * The two text rules of the read loop: when the text read so far ends the
   * command, and what is left of it once the marker is cut off.  The loop
   * below is written over any such pair; `LitRules` is the pair of
   * src/process.rs:229-231.
   */
  datatype Rules = Rules(stop: string -> bool, trim: string -> string)

  const LitRules: Rules := Rules(IsTerminal, FinalText)

  /** The trimming rule only ever cuts off a tail. */
  ghost predicate TrimsTail(rules: Rules) {
    forall t :: IsPrefix(rules.trim(t), t)
  }

  lemma LitRulesTrimTail()
    ensures TrimsTail(LitRules)
  {
    forall t ensures IsPrefix(LitRules.trim(t), t) {
      assert LitRules.trim(t) == FinalText(t);
    }
  }

  /**
   * The read loop of `handle_command` from read index `pos`, with the given
   * `buffer`, `last_chunk` and items already sent.
   */
  function CollectWith(rules: Rules, script: seq<ReadResult>, pos: nat, buffer: string,
                       last: string, sent: seq<Item>, rx: Receiver): (r: Run)
    requires pos <= |script|
    ensures pos <= r.next <= |script|
    decreases |script| - pos
  {
    if pos == |script| then Run(pos, buffer, sent, Blocked)
    else if !IsLive(script[pos]) then
      Run(pos + 1, buffer, Send(rx, sent, Failure(DeathReason(script[pos]))), Failed)
    else
      var text := buffer + script[pos].bytes;
      if rules.stop(text) then FinishRun(pos, text, rules.trim(text), last, sent, rx)
      else if |text| <= |last| then CollectWith(rules, script, pos + 1, text, last, sent, rx)
      else if Accepts(rx, |sent|) then
        CollectWith(rules, script, pos + 1, text, text, sent + [Token(text[|last|..])], rx)
      else Run(pos + 1, [], sent, Abandoned)
  }

  /** The loop with the marker rules of src/process.rs. */
  function Collect(script: seq<ReadResult>, pos: nat, buffer: string, last: string,
                   sent: seq<Item>, rx: Receiver): (r: Run)
    requires pos <= |script|
    ensures pos <= r.next <= |script|
  {
    CollectWith(LitRules, script, pos, buffer, last, sent, rx)
  }

  /** The terminal branch of the loop: the marker has been seen in `text`,
      whose final form is `fin`. */
  function FinishRun(pos: nat, text: string, fin: string, last: string,
                     sent: seq<Item>, rx: Receiver): Run
  {
    if |fin| <= |last| then Run(pos + 1, [], sent, Finished)
    else if Accepts(rx, |sent|) then Run(pos + 1, [], sent + [Token(fin[|last|..])], Finished)
    else Run(pos + 1, text, sent, Abandoned)
  }

  /**
   * Step 2 of `handle_command`: the loop over `stdout.read`, reading the
   * script from index `start` with a cleared buffer.
   */
  method ReadResponse(script: seq<ReadResult>, start: nat, rx: Receiver)
    returns (next: nat, buffer: string, sent: seq<Item>, outcome: Outcome)
    requires start <= |script|
    ensures Run(next, buffer, sent, outcome) == Collect(script, start, [], [], [], rx)
  {
    buffer := [];
    var lastChunk: string := [];
    sent := [];
    next := start;
    while true
      invariant start <= next <= |script|
      invariant Collect(script, next, buffer, lastChunk, sent, rx) == Collect(script, start, [], [], [], rx)
      decreases |script| - next
    {
      if next == |script| {
        outcome := Blocked;
        return;
      }
      var read := script[next];
      next := next + 1;
      match read {
        case ReadError(msg) =>
          sent := Send(rx, sent, Failure(msg));
          outcome := Failed;
          return;
        case Chunk(bytes) =>
          if bytes == [] {
            sent := Send(rx, sent, Failure(ClosedMessage));
            outcome := Failed;
            return;
          }
          ghost var old_buffer := buffer;
          buffer := buffer + bytes;
          var text := buffer;
          if IsTerminal(text) {
            var finalText := FinalText(text);
            assert Collect(script, next - 1, old_buffer, lastChunk, sent, rx) == FinishRun(next - 1, text, finalText, lastChunk, sent, rx);
            if |finalText| > |lastChunk| {
              var newContent := finalText[|lastChunk|..];
              if newContent != [] {
                if !Accepts(rx, |sent|) {
                  outcome := Abandoned;
                  return;
                }
                sent := sent + [Token(newContent)];
              }
            }
            buffer := [];
            outcome := Finished;
            return;
          }
          if |text| > |lastChunk| {
            var newContent := text[|lastChunk|..];
            if !Accepts(rx, |sent|) {
              buffer := [];
              outcome := Abandoned;
              return;
            }
            sent := sent + [Token(newContent)];
            lastChunk := text;
          }
      }
    }
  }

  // ---------------------------------------------------------------------
  // What the caller sees, in terms of what the child printed.

  /** The bytes delivered by reads `lo` .. `hi` - 1 of the script. */
  function Bytes(script: seq<ReadResult>, lo: nat, hi: nat): string
    requires lo <= hi <= |script|
    decreases hi
  {
    if lo == hi then [] else Bytes(script, lo, hi - 1) + ChunkBytes(script[hi - 1])
  }

  /** The text carried by the `Ok` items, in order. */
  function Texts(items: seq<Item>): string
    decreases |items|
  {
    if items == [] then []
    else Texts(items[..|items| - 1]) + (if items[|items| - 1].Token? then items[|items| - 1].text else [])
  }

  lemma TextsSnoc(items: seq<Item>, x: Item)
    ensures Texts(items + [x]) == Texts(items) + (if x.Token? then x.text else [])
  {
    assert (items + [x])[..|items|] == items;
  }

  predicate AllTokens(items: seq<Item>) {
    forall k :: 0 <= k < |items| ==> items[k].Token?
  }

  /**
   * What a finished command delivered, with `prev` the text before the last
   * read and `fin` the final text: everything up to `fin`, and exactly `fin`
   * unless `prev` was already longer (the last read brought only part of the
   * marker, which had then already been sent).
   */
  predicate Delivered(got: string, prev: string, fin: string) {
    && IsPrefix(fin, got)
    && (|prev| <= |fin| ==> got == fin)
    && (|fin| < |prev| ==> got == prev)
  }

  /** What the terminal step sends, when `last_chunk` is the text sent so far. */
  lemma FinishDelivered(pos: nat, text: string, fin: string, b: string, sent: seq<Item>, rx: Receiver)
    requires Texts(sent) == b && IsPrefix(b, text) && IsPrefix(fin, text)
    ensures FinishRun(pos, text, fin, b, sent, rx).outcome == Finished ==>
      Delivered(Texts(FinishRun(pos, text, fin, b, sent, rx).sent), b, fin)
  {
    if |fin| > |b| && Accepts(rx, |sent|) {
      TextsSnoc(sent, Token(fin[|b|..]));
      assert fin[..|b|] == text[..|b|] == b;
      assert b + fin[|b|..] == fin;
    }
  }

  /** The text read from `start` up to read `j` does not stop the loop yet. */
  predicate Quiet(rules: Rules, script: seq<ReadResult>, start: nat, j: nat)
    requires start <= j <= |script|
  {
    !rules.stop(Bytes(script, start, j))
  }

  /** `Quiet` holds at every read index `j` with `lo <= j < hi`. */
  predicate QuietBetween(rules: Rules, script: seq<ReadResult>, start: nat, lo: nat, hi: nat)
    requires start <= lo && hi <= |script|
    decreases hi - lo
  {
    lo >= hi || (Quiet(rules, script, start, lo) && QuietBetween(rules, script, start, lo + 1, hi))
  }

  lemma {:induction false} QuietBetweenAll(rules: Rules, script: seq<ReadResult>, start: nat, lo: nat, hi: nat)
    requires start <= lo && hi <= |script|
    requires QuietBetween(rules, script, start, lo, hi)
    ensures forall j :: lo <= j < hi ==> Quiet(rules, script, start, j)
    decreases hi - lo
  {
    if lo < hi {
      QuietBetweenAll(rules, script, start, lo + 1, hi);
    }
  }

  /**
   * Text-level invariant of a run that began at read `start` with an empty
   * buffer, seen from read `pos`: before the end, the receiver got exactly
   * the text read (the fragments concatenate to it); the loop stops at the
   * first read after which the text is terminal; a finished run sent what
   * `Delivered` says.
   */
  predicate TextInvariant(rules: Rules, script: seq<ReadResult>, start: nat, pos: nat, r: Run)
    requires start <= pos <= r.next <= |script|
  {
    && (r.outcome == Blocked ==> r.buffer == Texts(r.sent) == Bytes(script, start, r.next))
    && (r.outcome == Failed ==> Texts(r.sent) == Bytes(script, start, r.next))
    && (r.outcome == Abandoned ==> r.next > pos && Texts(r.sent) == Bytes(script, start, r.next - 1))
    && (pos < r.next ==> QuietBetween(rules, script, start, pos + 1, r.next))
    && (r.outcome == Blocked && pos < r.next ==> Quiet(rules, script, start, r.next))
    && (r.outcome == Finished ==>
          && r.next > pos && r.buffer == []
          && rules.stop(Bytes(script, start, r.next))
          && Delivered(Texts(r.sent), Bytes(script, start, r.next - 1),
                       rules.trim(Bytes(script, start, r.next))))
  }

  /** The terminal read keeps the invariant. */
  lemma TextFinish(rules: Rules, script: seq<ReadResult>, start: nat, pos: nat, b: string, r: Run)
    requires start <= pos < |script| && r.next == pos + 1
    requires b == Bytes(script, start, pos)
    requires rules.stop(Bytes(script, start, pos + 1))
    requires r.outcome == Finished || r.outcome == Abandoned
    requires r.outcome == Finished ==>
               r.buffer == [] && Delivered(Texts(r.sent), b, rules.trim(Bytes(script, start, pos + 1)))
    requires r.outcome == Abandoned ==> Texts(r.sent) == b
    ensures TextInvariant(rules, script, start, pos, r)
  {
  }

  /** A read that ends the run without the marker keeps the invariant. */
  lemma TextStop(rules: Rules, script: seq<ReadResult>, start: nat, pos: nat, b: string, r: Run)
    requires start <= pos < |script| && r.next == pos + 1
    requires b == Bytes(script, start, pos) && Texts(r.sent) == b
    requires r.outcome == Failed ==> !IsLive(script[pos])
    requires r.outcome == Failed || r.outcome == Abandoned
    ensures TextInvariant(rules, script, start, pos, r)
  {
    if r.outcome == Failed {
      assert Bytes(script, start, pos + 1) == b + [];
    }
  }

  /** A live read that does not stop the loop, in front of a run, keeps the invariant. */
  lemma TextStep(rules: Rules, script: seq<ReadResult>, start: nat, pos: nat, r: Run)
    requires start <= pos < r.next <= |script|
    requires Quiet(rules, script, start, pos + 1)
    requires TextInvariant(rules, script, start, pos + 1, r)
    ensures TextInvariant(rules, script, start, pos, r)
  {
  }

  /** A dead read (EOF or read error) at `pos` keeps the invariant. */
  lemma DeadText(rules: Rules, script: seq<ReadResult>, start: nat, pos: nat,
                 b: string, sent: seq<Item>, rx: Receiver)
    requires start <= pos < |script| && !IsLive(script[pos])
    requires b == Bytes(script, start, pos) && Texts(sent) == b
    ensures TextInvariant(rules, script, start, pos, CollectWith(rules, script, pos, b, b, sent, rx))
  {
    var r := CollectWith(rules, script, pos, b, b, sent, rx);
    var item := Failure(DeathReason(script[pos]));
    assert r == Run(pos + 1, b, Send(rx, sent, item), Failed);
    TextsSnoc(sent, item);
    TextStop(rules, script, start, pos, b, r);
  }

  /** A live read at `pos` after which the loop stops keeps the invariant. */
  lemma StopText(rules: Rules, script: seq<ReadResult>, start: nat, pos: nat,
                 b: string, sent: seq<Item>, rx: Receiver)
    requires TrimsTail(rules)
    requires start <= pos < |script| && IsLive(script[pos])
    requires b == Bytes(script, start, pos) && Texts(sent) == b
    requires rules.stop(b + script[pos].bytes)
    ensures TextInvariant(rules, script, start, pos, CollectWith(rules, script, pos, b, b, sent, rx))
  {
    var r := CollectWith(rules, script, pos, b, b, sent, rx);
    var text := b + script[pos].bytes;
    assert Bytes(script, start, pos + 1) == text;
    assert text[..|b|] == b;
    var fin := rules.trim(text);
    assert r == FinishRun(pos, text, fin, b, sent, rx);
    FinishDelivered(pos, text, fin, b, sent, rx);
    TextFinish(rules, script, start, pos, b, r);
  }

  /** A live read at `pos` whose fragment the receiver refuses keeps the invariant. */
  lemma RefusedText(rules: Rules, script: seq<ReadResult>, start: nat, pos: nat,
                    b: string, sent: seq<Item>, rx: Receiver)
    requires start <= pos < |script| && IsLive(script[pos])
    requires b == Bytes(script, start, pos) && Texts(sent) == b
    requires !rules.stop(b + script[pos].bytes) && !Accepts(rx, |sent|)
    ensures TextInvariant(rules, script, start, pos, CollectWith(rules, script, pos, b, b, sent, rx))
  {
    var r := CollectWith(rules, script, pos, b, b, sent, rx);
    assert r == Run(pos + 1, [], sent, Abandoned);
    TextStop(rules, script, start, pos, b, r);
  }

  /**
   * The loop from read `pos` on, where `buffer` and `last_chunk` both hold
   * the `b` read since `start` and the receiver got exactly `b` so far.
   */
  lemma {:induction false} CollectText(rules: Rules, script: seq<ReadResult>, start: nat, pos: nat,
                                       b: string, sent: seq<Item>, rx: Receiver)
    requires TrimsTail(rules)
    requires start <= pos <= |script|
    requires b == Bytes(script, start, pos) && Texts(sent) == b
    ensures TextInvariant(rules, script, start, pos, CollectWith(rules, script, pos, b, b, sent, rx))
    decreases |script| - pos
  {
    if pos == |script| {
    } else if !IsLive(script[pos]) {
      DeadText(rules, script, start, pos, b, sent, rx);
    } else if rules.stop(b + script[pos].bytes) {
      StopText(rules, script, start, pos, b, sent, rx);
    } else if !Accepts(rx, |sent|) {
      RefusedText(rules, script, start, pos, b, sent, rx);
    } else {
      var text := b + script[pos].bytes;
      var sent1 := sent + [Token(text[|b|..])];
      assert Bytes(script, start, pos + 1) == text;
      assert text[..|b|] == b;
      TextsSnoc(sent, Token(text[|b|..]));
      CollectText(rules, script, start, pos + 1, text, sent1, rx);
      TextStep(rules, script, start, pos, CollectWith(rules, script, pos + 1, text, text, sent1, rx));
    }
  }

  /**
   * Item-level invariant of the loop: which script it consumed, when it
   * fails, and how many items a dropped receiver gets.
   */
  predicate ItemInvariant(script: seq<ReadResult>, pos: nat, rx: Receiver, r: Run)
    requires pos <= r.next <= |script|
  {
    && (forall k :: pos <= k < r.next - 1 ==> IsLive(script[k]))
    && (r.outcome == Failed <==> r.next > pos && !IsLive(script[r.next - 1]))
    && (r.outcome == Blocked ==> r.next == |script|)
    && (r.outcome == Finished || r.outcome == Abandoned ==> r.next > pos)
    && (r.outcome != Failed ==> AllTokens(r.sent))
    && (forall k :: 0 <= k < |r.sent| - 1 ==> r.sent[k].Token?)
    && (r.outcome == Failed && rx.Listening? ==>
          r.sent != [] && r.sent[|r.sent| - 1] == Failure(DeathReason(script[r.next - 1])))
    && (rx.Listening? ==> r.outcome != Abandoned)
    && (rx.DropsAfter? ==> |r.sent| <= rx.limit)
    && (rx.DropsAfter? && r.outcome == Abandoned ==> |r.sent| == rx.limit)
  }

  /** The reads of a run that ends at `pos` itself keep the item invariant. */
  lemma EndItems(rules: Rules, script: seq<ReadResult>, pos: nat, b: string,
                 sent: seq<Item>, rx: Receiver)
    requires pos <= |script| && AllTokens(sent)
    requires rx.DropsAfter? ==> |sent| <= rx.limit
    requires pos < |script| && IsLive(script[pos]) ==>
               rules.stop(b + script[pos].bytes) || !Accepts(rx, |sent|)
    ensures ItemInvariant(script, pos, rx, CollectWith(rules, script, pos, b, b, sent, rx))
  {
  }

  /** A live read whose fragment is delivered, in front of a run, keeps the item invariant. */
  lemma StepItems(script: seq<ReadResult>, pos: nat, rx: Receiver, r: Run)
    requires pos < r.next <= |script| && IsLive(script[pos])
    requires ItemInvariant(script, pos + 1, rx, r)
    ensures ItemInvariant(script, pos, rx, r)
  {
  }

  lemma {:induction false} CollectItems(rules: Rules, script: seq<ReadResult>, pos: nat, b: string,
                                        sent: seq<Item>, rx: Receiver)
    requires pos <= |script| && AllTokens(sent)
    requires rx.DropsAfter? ==> |sent| <= rx.limit
    ensures ItemInvariant(script, pos, rx, CollectWith(rules, script, pos, b, b, sent, rx))
    decreases |script| - pos
  {
    if pos < |script| && IsLive(script[pos]) && !rules.stop(b + script[pos].bytes) && Accepts(rx, |sent|) {
      var text := b + script[pos].bytes;
      var sent1 := sent + [Token(text[|b|..])];
      CollectItems(rules, script, pos + 1, text, sent1, rx);
      StepItems(script, pos, rx, CollectWith(rules, script, pos + 1, text, text, sent1, rx));
    } else {
      EndItems(rules, script, pos, b, sent, rx);
    }
  }

  // ---------------------------------------------------------------------
  // One command as its caller sees it: the loop from a cleared buffer and
  // an empty `last_chunk`, with nothing sent yet.

  /**
   * Until the marker, the fragments concatenate to exactly the text read;
   * a refused fragment is the last thing attempted; a finished command
   * delivered the final text, or the longer text already sent when the
   * last read only completed the marker.
   */
  lemma FragmentsFollowText(script: seq<ReadResult>, start: nat, rx: Receiver)
    requires start <= |script|
    ensures var r := Collect(script, start, [], [], [], rx);
      && NonEmptyTokens(r.sent)
      && (r.outcome == Blocked ==> r.buffer == Texts(r.sent) == Bytes(script, start, r.next))
      && (r.outcome == Failed ==> Texts(r.sent) == Bytes(script, start, r.next))
      && (r.outcome == Abandoned ==> r.next > start && Texts(r.sent) == Bytes(script, start, r.next - 1))
      && (r.outcome == Finished ==>
            && r.next > start && r.buffer == []
            && Delivered(Texts(r.sent), Bytes(script, start, r.next - 1),
                         FinalText(Bytes(script, start, r.next))))
  {
    var r := Collect(script, start, [], [], [], rx);
    TokensNonEmpty(LitRules, script, start, [], [], [], rx);
    LitRulesTrimTail();
    CollectText(LitRules, script, start, start, [], [], rx);
    assert TextInvariant(LitRules, script, start, start, r);
    if r.outcome == Finished {
      assert LitRules.trim(Bytes(script, start, r.next)) == FinalText(Bytes(script, start, r.next));
    }
  }

  /** Every fragment sent carries text: only a longer text is sent on. */
  predicate NonEmptyTokens(items: seq<Item>) {
    forall k :: 0 <= k < |items| && items[k].Token? ==> items[k].text != []
  }

  lemma {:induction false} TokensNonEmpty(rules: Rules, script: seq<ReadResult>, pos: nat, buffer: string,
                                          last: string, sent: seq<Item>, rx: Receiver)
    requires pos <= |script| && NonEmptyTokens(sent)
    ensures NonEmptyTokens(CollectWith(rules, script, pos, buffer, last, sent, rx).sent)
    decreases |script| - pos
  {
    if pos < |script| && IsLive(script[pos]) {
      var text := buffer + script[pos].bytes;
      if !rules.stop(text) {
        if |text| <= |last| {
          TokensNonEmpty(rules, script, pos + 1, text, last, sent, rx);
        } else if Accepts(rx, |sent|) {
          var sent' := sent + [Token(text[|last|..])];
          assert sent'[|sent|].text != [];
          TokensNonEmpty(rules, script, pos + 1, text, text, sent', rx);
        }
      } else {
        var fin := rules.trim(text);
        if |fin| > |last| && Accepts(rx, |sent|) {
          var sent' := sent + [Token(fin[|last|..])];
          assert sent'[|sent|].text != [];
        }
      }
    }
  }

  lemma StopIsTerminal(t: string)
    ensures LitRules.stop(t) == IsTerminal(t)
  {
  }

  /** The stopping part of the text invariant: the run ends at the first
      read after which the text stops it. */
  lemma FirstStop(rules: Rules, script: seq<ReadResult>, start: nat, r: Run)
    requires start <= r.next <= |script|
    requires TextInvariant(rules, script, start, start, r)
    ensures r.outcome == Finished ==> r.next > start && rules.stop(Bytes(script, start, r.next))
    ensures forall j :: start < j < r.next ==> Quiet(rules, script, start, j)
    ensures r.outcome == Blocked ==> forall j :: start < j <= r.next ==> Quiet(rules, script, start, j)
  {
    if start < r.next {
      QuietBetweenAll(rules, script, start, start + 1, r.next);
    }
  }

  /** The marker part of the text invariant, in terms of `IsTerminal`. */
  lemma FirstMarker(script: seq<ReadResult>, start: nat, r: Run)
    requires start <= r.next <= |script|
    requires TextInvariant(LitRules, script, start, start, r)
    ensures r.outcome == Finished ==> r.next > start && IsTerminal(Bytes(script, start, r.next))
    ensures forall j :: start < j < r.next ==> !IsTerminal(Bytes(script, start, j))
    ensures r.outcome == Blocked ==> forall j :: start < j <= r.next ==> !IsTerminal(Bytes(script, start, j))
  {
    FirstStop(LitRules, script, start, r);
    if r.outcome == Finished {
      StopIsTerminal(Bytes(script, start, r.next));
    }
    var last := if r.outcome == Blocked then r.next else r.next - 1;
    forall j | start < j <= last
      ensures !IsTerminal(Bytes(script, start, j))
    {
      assert Quiet(LitRules, script, start, j);
      StopIsTerminal(Bytes(script, start, j));
    }
  }

  /** The command ends at the first read after which the text is terminal, and not before. */
  lemma StopsAtFirstMarker(script: seq<ReadResult>, start: nat, rx: Receiver)
    requires start <= |script|
    ensures var r := Collect(script, start, [], [], [], rx);
      && (r.outcome == Finished ==> r.next > start && IsTerminal(Bytes(script, start, r.next)))
      && (forall j :: start < j < r.next ==> !IsTerminal(Bytes(script, start, j)))
      && (r.outcome == Blocked ==> forall j :: start < j <= r.next ==> !IsTerminal(Bytes(script, start, j)))
  {
    LitRulesTrimTail();
    CollectText(LitRules, script, start, start, [], [], rx);
    FirstMarker(script, start, Collect(script, start, [], [], [], rx));
  }

  /**
   * With a listening receiver and no dead read, the command finishes if and
   * only if some prefix of what the child prints ends with the marker or
   * contains it at the start of a line.
   */
  lemma FinishedIffMarker(script: seq<ReadResult>, start: nat)
    requires start <= |script|
    requires forall k :: start <= k < |script| ==> IsLive(script[k])
    ensures Collect(script, start, [], [], [], Listening).outcome == Finished <==>
              exists j :: start < j <= |script| && IsTerminal(Bytes(script, start, j))
  {
    var r := Collect(script, start, [], [], [], Listening);
    CollectItems(LitRules, script, start, [], [], Listening);
    StopsAtFirstMarker(script, start, Listening);
    assert r.outcome != Failed && r.outcome != Abandoned;
    if r.outcome != Finished {
      assert r.outcome == Blocked && r.next == |script|;
      forall j | start < j <= |script| ensures !IsTerminal(Bytes(script, start, j)) {
      }
    } else {
      assert start < r.next <= |script| && IsTerminal(Bytes(script, start, r.next));
      assert exists j :: start < j <= |script| && IsTerminal(Bytes(script, start, j));
      assert r.outcome == Finished;
    }
  }

  /**
   * A dead read (EOF or read error) ends the command: every earlier read was
   * live, and a listening receiver gets exactly one error, the last item,
   * after nothing but tokens.
   */
  lemma DeathEndsCommand(script: seq<ReadResult>, start: nat, rx: Receiver)
    requires start <= |script|
    ensures var r := Collect(script, start, [], [], [], rx);
      && (forall k :: start <= k < r.next - 1 ==> IsLive(script[k]))
      && (r.outcome == Failed <==> r.next > start && !IsLive(script[r.next - 1]))
      && (r.outcome != Failed ==> AllTokens(r.sent))
      && (r.outcome == Failed && rx.Listening? ==>
            && r.sent != [] && r.sent[|r.sent| - 1] == Failure(DeathReason(script[r.next - 1]))
            && AllTokens(r.sent[..|r.sent| - 1]))
  {
    var r := Collect(script, start, [], [], [], rx);
    CollectItems(LitRules, script, start, [], [], rx);
    if r.outcome == Failed && rx.Listening? {
      assert forall k :: 0 <= k < |r.sent| - 1 ==> r.sent[..|r.sent| - 1][k] == r.sent[k];
    }
  }

  /**
   * A receiver that goes away after `limit` items gets at most `limit`
   * items, and the loop gives up at the first send that fails; a listening
   * receiver is never given up on.
   */
  lemma AbandonStopsSending(script: seq<ReadResult>, start: nat, rx: Receiver)
    requires start <= |script|
    ensures var r := Collect(script, start, [], [], [], rx);
      && (rx.DropsAfter? ==> |r.sent| <= rx.limit)
      && (r.outcome == Abandoned ==> rx.DropsAfter? && |r.sent| == rx.limit)
  {
    CollectItems(LitRules, script, start, [], [], rx);
  }

  /** What is cut off the final text is some newlines after some markers, and
      the final text no longer ends with a newline. */
  lemma CompletionStripsMarker(text: string)
    ensures var fin := FinalText(text);
      && !EndsWith(fin, "\n")
      && exists i :: |fin| <= i <= |text| && Repeats(text[|fin|..i], "\n") && Repeats(text[i..], Marker)
                     && !EndsWith(text[..i], Marker)
  {
    var t := TrimEnd(text, Marker);
    var fin := TrimEnd(t, "\n");
    TrimEndSpec(text, Marker);
    TrimEndSpec(t, "\n");
    assert text[..|t|] == t;
    assert text[|fin|..|t|] == t[|fin|..];
  }

  /** A marker that is not at the very end ends the command but is not cut off. */
  lemma InnerMarkerKept()
    ensures IsTerminal("a\n>>>b") && FinalText("a\n>>>b") == "a\n>>>b"
  {
    assert OccursAt("a\n>>>b", "\n>>>", 1);
    assert !EndsWith("a\n>>>b", Marker);
    assert !EndsWith("a\n>>>b", "\n");
  }

  /** The two reads of the split-marker example, one step at a time. */
  lemma SplitFirstRead()
    ensures CollectWith(LitRules, [Chunk("4\n>"), Chunk(">>")], 0, [], [], [], Listening)
         == CollectWith(LitRules, [Chunk("4\n>"), Chunk(">>")], 1, "4\n>", "4\n>", [Token("4\n>")], Listening)
  {
    var text1, empty: string := "4\n>", [];
    assert empty + text1 == text1 && text1[|empty|..] == text1;
    assert !IsTerminal(text1) by {
      assert !EndsWith(text1, Marker);
    }
  }

  lemma SplitSecondRead()
    ensures CollectWith(LitRules, [Chunk("4\n>"), Chunk(">>")], 1, "4\n>", "4\n>", [Token("4\n>")], Listening)
         == FinishRun(1, "4\n>>>", "4", "4\n>", [Token("4\n>")], Listening)
  {
    var text2 := "4\n>>>";
    assert "4\n>" + ">>" == text2;
    assert EndsWith(text2, Marker);
    assert FinalText(text2) == "4" by {
      assert text2[..|text2| - 3] == "4\n";
      assert !EndsWith("4\n", Marker) && "4\n"[..1] == "4";
    }
  }

  /**
   * Partial-marker bytes already sent are never taken back: chunks "4\n>"
   * then ">>" give the single fragment "4\n>", since the final text "4" is
   * shorter than what was sent.
   */
  lemma SplitMarkerKeepsPartialMarker()
    ensures Collect([Chunk("4\n>"), Chunk(">>")], 0, [], [], [], Listening)
              == Run(2, [], [Token("4\n>")], Finished)
  {
    SplitFirstRead();
    SplitSecondRead();
  }
}
