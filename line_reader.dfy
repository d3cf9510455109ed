/** `readFromRL` of cmd/noms/noms_cmd.go: read lines until the number of `"`
    characters read in this call is even, so that a quoted argument may span lines.
    The readline instance is a finite sequence of events and a cursor into it;
    once the events run out, every further read reports end of input. */
module LineReader {
  import opened Wrappers

  datatype ReadError = Eof | Interrupted | Failed(reason: string)

  /** What one `rl.Readline()` call returns: a line (without its newline) or an error. */
  datatype ReadEvent = Line(text: string) | Fault(err: ReadError)

  /** What `readFromRL` returns, with the position of the first event it did not consume. */
  datatype ReadResult = ReadResult(text: string, err: Option<ReadError>, next: nat)

  /** The number of `"` characters in `s`. */
  function QuoteCount(s: string): nat {
    if s == [] then 0 else QuoteCount(s[..|s| - 1]) + (if s[|s| - 1] == '"' then 1 else 0)
  }

  lemma {:induction false} QuoteCountAppend(a: string, b: string)
    ensures QuoteCount(a + b) == QuoteCount(a) + QuoteCount(b)
    decreases |b|
  {
    if b == [] {
      assert a + b == a;
    } else {
      assert (a + b)[..|a + b| - 1] == a + b[..|b| - 1];
      QuoteCountAppend(a, b[..|b| - 1]);
    }
  }

  /** The newline `readFromRL` appends holds no quote. */
  lemma QuotesAfterLine(l: string, x: string)
    ensures QuoteCount(l + "\n") == QuoteCount(l)
    ensures QuoteCount(l + "\n" + x) == QuoteCount(l) + QuoteCount(x)
  {
    QuoteCountAppend(l, "\n");
    QuoteCountAppend(l + "\n", x);
  }

  predicate Odd(n: nat) {
    n % 2 == 1
  }

  /** Every event in `events[i..j]` is a line. */
  predicate AllLines(events: seq<ReadEvent>, i: nat, j: nat)
    requires i <= j <= |events|
  {
    forall k :: i <= k < j ==> events[k].Line?
  }

  /** The lines `events[i..j]`, each followed by a newline. */
  function Joined(events: seq<ReadEvent>, i: nat, j: nat): string
    requires i <= j <= |events| && AllLines(events, i, j)
    decreases j - i
  {
    if i == j then "" else events[i].text + "\n" + Joined(events, i + 1, j)
  }

  /** `piece` put in front of a successful read; a failed read keeps its empty text. */
  function Prepend(piece: string, r: ReadResult): ReadResult {
    if r.err.None? then r.(text := piece + r.text) else r
  }

  /** Reference definition of a read that starts at `events[pos]`, where `open` says
      whether the quotes read so far in this call are unbalanced. */
  function Continue(events: seq<ReadEvent>, pos: nat, open: bool): (r: ReadResult)
    requires pos <= |events|
    ensures pos <= r.next <= |events|
    ensures r.err.None? ==> pos < r.next
    decreases |events| - pos
  {
    if pos == |events| then
      ReadResult("", Some(Eof), pos)
    else
      match events[pos]
      case Fault(e) => ReadResult("", Some(e), pos + 1)
      case Line(l) =>
        if open == Odd(QuoteCount(l)) then ReadResult(l + "\n", None, pos + 1)
        else Prepend(l + "\n", Continue(events, pos + 1, true))
  }

  /** What one call of `readFromRL` returns when the next unread event is `events[pos]`. */
  function ReadSpec(events: seq<ReadEvent>, pos: nat): (r: ReadResult)
    requires pos <= |events|
    ensures pos <= r.next <= |events|
    ensures r.err.None? ==> pos < r.next
  {
    Continue(events, pos, false)
  }

  /** The index of the event at which a failed read stopped: the faulty event, or
      `|events|` when the events ran out. */
  function FaultIndex(events: seq<ReadEvent>, pos: nat, r: ReadResult): nat
    requires pos <= r.next <= |events|
  {
    if pos < r.next && events[r.next - 1].Fault? then r.next - 1 else r.next
  }

  /** `readFromRL`: the loop of cmd/noms/noms_cmd.go, over the event sequence. */
  method ReadFromRL(events: seq<ReadEvent>, pos: nat) returns (line: string, err: Option<ReadError>, next: nat)
    requires pos <= |events|
    ensures ReadResult(line, err, next) == ReadSpec(events, pos)
  {
    var quoteCount := 0;
    var res := "";
    next := pos;
    PrependNothing(ReadSpec(events, pos));
    while true
      invariant pos <= next <= |events|
      invariant ReadSpec(events, pos) == Prepend(res, Continue(events, next, Odd(quoteCount)))
      decreases |events| - next
    {
      if next == |events| {
        return "", Some(Eof), next;
      }
      var ev := events[next];
      if ev.Fault? {
        return "", Some(ev.err), next + 1;
      }
      var l := ev.text;
      var n := CountQuotes(l);
      ContinueLine(events, next, Odd(quoteCount), res);
      quoteCount := quoteCount + n;
      res := res + l + "\n";
      next := next + 1;
      if quoteCount % 2 == 0 {
        return res, None, next;
      }
    }
  }

  lemma PrependNothing(r: ReadResult)
    ensures Prepend("", r) == r
  {
    if r.err.None? {
      assert "" + r.text == r.text;
    }
  }

  /** One line read by `readFromRL` with `acc` read before it in the same call. */
  lemma ContinueLine(events: seq<ReadEvent>, i: nat, open: bool, acc: string)
    requires i < |events| && events[i].Line?
    ensures var l := events[i].text;
      var open' := Odd(if open then 1 + QuoteCount(l) else QuoteCount(l));
      Prepend(acc, Continue(events, i, open)) ==
        if !open' then ReadResult(acc + l + "\n", None, i + 1)
        else Prepend(acc + l + "\n", Continue(events, i + 1, true))
  {
    var l := events[i].text;
    var rest := Continue(events, i + 1, true);
    if open != Odd(QuoteCount(l)) {
      assert Continue(events, i, open) == Prepend(l + "\n", rest);
      PrependTwice(acc, l + "\n", rest);
    }
  }

  /** The inner loop of `readFromRL` over the characters of one line. */
  method CountQuotes(l: string) returns (n: nat)
    ensures n == QuoteCount(l)
  {
    n := 0;
    for k := 0 to |l|
      invariant n == QuoteCount(l[..k])
    {
      assert l[..k + 1][..k] == l[..k];
      if l[k] == '"' {
        n := n + 1;
      }
    }
    assert l[..|l|] == l;
  }

  lemma PrependTwice(a: string, b: string, r: ReadResult)
    ensures Prepend(a, Prepend(b, r)) == Prepend(a + b, r)
  {
    if r.err.None? {
      assert a + (b + r.text) == a + b + r.text;
    }
  }

  /** The number of quotes in the lines `events[i..j]`. */
  function LineQuotes(events: seq<ReadEvent>, i: nat, j: nat): nat
    requires i <= j <= |events| && AllLines(events, i, j)
    decreases j - i
  {
    if i == j then 0 else QuoteCount(events[i].text) + LineQuotes(events, i + 1, j)
  }

  /** The newlines `readFromRL` appends hold no quotes. */
  lemma {:induction false} JoinedQuotes(events: seq<ReadEvent>, i: nat, j: nat)
    requires i <= j <= |events| && AllLines(events, i, j)
    ensures QuoteCount(Joined(events, i, j)) == LineQuotes(events, i, j)
    decreases j - i
  {
    if i < j {
      JoinedQuotes(events, i + 1, j);
      QuotesAfterLine(events[i].text, Joined(events, i + 1, j));
    }
  }

  /** Generalisation of ReadStopsAtBalance to a read that starts inside an open quote. */
  lemma {:induction false} ContinueSucceeds(events: seq<ReadEvent>, pos: nat, open: bool)
    requires pos <= |events|
    ensures var r := Continue(events, pos, open);
      r.err.None? ==>
        && AllLines(events, pos, r.next)
        && r.text == Joined(events, pos, r.next)
        && Odd(LineQuotes(events, pos, r.next)) == open
        && forall j :: pos < j < r.next ==> Odd(LineQuotes(events, pos, j)) != open
    decreases |events| - pos
  {
    if pos == |events| || events[pos].Fault? {
      return;
    }
    var l := events[pos].text;
    if open == Odd(QuoteCount(l)) {
      assert Continue(events, pos, open) == ReadResult(l + "\n", None, pos + 1);
      assert Joined(events, pos, pos + 1) == l + "\n";
      return;
    }
    var rest := Continue(events, pos + 1, true);
    assert Continue(events, pos, open) == Prepend(l + "\n", rest);
    if rest.err.Some? {
      return;
    }
    ContinueSucceeds(events, pos + 1, true);
  }

  /** Generalisation of ReadFailureDiscards to a read that starts inside an open quote. */
  lemma {:induction false} ContinueFails(events: seq<ReadEvent>, pos: nat, open: bool)
    requires pos <= |events|
    ensures var r := Continue(events, pos, open);
      r.err.Some? ==>
        && r.text == ""
        && var f := FaultIndex(events, pos, r);
        && AllLines(events, pos, f)
        && (f == |events| ==> r.next == f && r.err == Some(Eof))
        && (f < |events| ==> r.next == f + 1 && events[f] == Fault(r.err.value))
        && forall j :: pos < j <= f ==> Odd(LineQuotes(events, pos, j)) != open
    decreases |events| - pos
  {
    if pos == |events| || events[pos].Fault? {
      return;
    }
    var l := events[pos].text;
    if open == Odd(QuoteCount(l)) {
      return;
    }
    var rest := Continue(events, pos + 1, true);
    assert Continue(events, pos, open) == Prepend(l + "\n", rest);
    if rest.err.None? {
      return;
    }
    ContinueFails(events, pos + 1, true);
    assert FaultIndex(events, pos, rest) == FaultIndex(events, pos + 1, rest);
  }

  /** A successful read consumes the lines `events[pos..next]`, returns them each
      followed by a newline, holds an even number of quotes, and stops at the first
      such point: every shorter run of whole lines holds an odd number. */
  lemma ReadStopsAtBalance(events: seq<ReadEvent>, pos: nat)
    requires pos <= |events|
    ensures var r := ReadSpec(events, pos);
      r.err.None? ==>
        && pos < r.next
        && AllLines(events, pos, r.next)
        && r.text == Joined(events, pos, r.next)
        && QuoteCount(r.text) % 2 == 0
        && forall j :: pos < j < r.next ==> Odd(QuoteCount(Joined(events, pos, j)))
  {
    ContinueSucceeds(events, pos, false);
    var r := ReadSpec(events, pos);
    if r.err.None? {
      JoinedQuotes(events, pos, r.next);
      forall j | pos < j < r.next
        ensures Odd(QuoteCount(Joined(events, pos, j)))
      {
        JoinedQuotes(events, pos, j);
      }
    }
  }

  /** A failed read returns no text, even when it fails partway through a quoted
      continuation: the error is the one of the faulty event, or end of input when the
      events ran out, and every line read before it left the quotes unbalanced. */
  lemma ReadFailureDiscards(events: seq<ReadEvent>, pos: nat)
    requires pos <= |events|
    ensures var r := ReadSpec(events, pos);
      r.err.Some? ==>
        && r.text == ""
        && var f := FaultIndex(events, pos, r);
        && AllLines(events, pos, f)
        && (f == |events| ==> r.next == f && r.err == Some(Eof))
        && (f < |events| ==> r.next == f + 1 && events[f] == Fault(r.err.value))
        && forall j :: pos < j <= f ==> Odd(QuoteCount(Joined(events, pos, j)))
  {
    ContinueFails(events, pos, false);
    var r := ReadSpec(events, pos);
    if r.err.Some? {
      forall j | pos < j <= FaultIndex(events, pos, r)
        ensures Odd(QuoteCount(Joined(events, pos, j)))
      {
        JoinedQuotes(events, pos, j);
      }
    }
  }
}
