/** nomsCmdLog: print the commit history of a dataset through a pipeline. A
    producer goroutine walks the commit iterator and admits up to `maxCommits`
    nodes, pushing one slot per node into a channel of capacity `parallelism`
    and starting a render goroutine for it; the calling goroutine takes the
    slots off in order, waits for each render and copies the bytes to the pager.
    After the first failed write it sets `done` and drains the channel.

    The goroutines run as steps chosen by an arbitrary schedule `sched`; a step
    whose goroutine is blocked is replaced by one that can run. The properties
    below hold for every schedule. */
module LogPipeline {
  import opened Wrappers
  import opened Channels
  import Shell

  type Byte = b: int | 0 <= b < 256

  /** `math.MaxInt32`. */
  const MaxInt32: nat := 0x7fff_ffff

  function Min(a: nat, b: nat): (m: nat)
    ensures m <= a && m <= b && (m == a || m == b)
  {
    if a <= b then a else b
  }

  /** The commit limit after `if o.maxCommits <= 0 { o.maxCommits = math.MaxInt32 }`. */
  function NormaliseLimit(maxCommits: int): (limit: nat)
    ensures limit > 0
    ensures maxCommits > 0 ==> limit == maxCommits
    ensures maxCommits <= 0 ==> limit == MaxInt32
  {
    if maxCommits <= 0 then MaxInt32 else maxCommits
  }

  /** The `log` command of the shell leaves `maxCommits` at zero, so its log is
      unbounded in the sense of the code: at most MaxInt32 commits. */
  lemma ShellLogIsUnbounded(args: seq<string>)
    requires |args| >= 2
    ensures NormaliseLimit(Shell.LogOptionsFor(args).maxCommits) == MaxInt32
  {
  }

  /** What `ds.MaybeHead()` found: no head, or a head value that is or is not a commit. */
  datatype Head = NoHead | HeadValue(isCommit: bool)

  /** The error nomsCmdLog returns: "<head> is not a Commit object". */
  datatype LogError = NotACommit

  /** The bytes of the nodes `ns`, each rendered by `printCommit`, in order. */
  function RenderAll<N>(render: N -> seq<Byte>, ns: seq<N>): seq<Byte> {
    if ns == [] then [] else RenderAll(render, ns[..|ns| - 1]) + render(ns[|ns| - 1])
  }

  lemma {:induction false} RenderAllAppend<N>(render: N -> seq<Byte>, a: seq<N>, b: seq<N>)
    ensures RenderAll(render, a + b) == RenderAll(render, a) + RenderAll(render, b)
    decreases |b|
  {
    if b != [] {
      var b' := b[..|b| - 1];
      assert (a + b)[..|a + b| - 1] == a + b';
      RenderAllAppend(render, a, b');
    } else {
      assert a + b == a;
    }
  }

  /** Writing the first `k` nodes gives a prefix of writing them all. */
  lemma RenderAllPrefix<N>(render: N -> seq<Byte>, ns: seq<N>, k: nat)
    requires k <= |ns|
    ensures RenderAll(render, ns[..k]) <= RenderAll(render, ns)
  {
    assert ns == ns[..k] + ns[k..];
    RenderAllAppend(render, ns[..k], ns[k..]);
  }

  /** The tickets `lo, lo + 1, …, hi - 1`. */
  function Tickets(lo: nat, hi: nat): (t: seq<nat>)
    requires lo <= hi
    ensures |t| == hi - lo && forall i :: 0 <= i < |t| ==> t[i] == lo + i
    decreases hi - lo
  {
    if lo == hi then [] else [lo] + Tickets(lo + 1, hi)
  }

  lemma {:induction false} BoundedSetSize(r: set<nat>, n: nat)
    requires forall x :: x in r ==> x < n
    ensures |r| <= n
  {
    if n == 0 {
      assert r == {};
    } else {
      var r' := r - {n - 1};
      BoundedSetSize(r', n - 1);
      if n - 1 in r {
        assert r == r' + {n - 1};
      } else {
        assert r == r';
      }
    }
  }

  /** Where the producer goroutine is: about to call `iter.Next()`, about to push
      the slot of the node it admitted, or finished (the channel is closed). */
  datatype ProducerPhase = NeedNext | Pushing | ProducerDone

  /** Where the calling goroutine is: at `for ch := range bytesChan`, at
      `<-ch` for the given ticket, in the inner `for range bytesChan` that
      drains the channel after a failed write, or returned. */
  datatype DrainPhase = Receiving | Awaiting(ticket: nat) | Discarding | DrainDone

  /** The goroutine a schedule step asks to run. */
  datatype Turn = RunProducer | RunDrain | RunRender(ticket: nat)

  /** The state of nomsCmdLog besides the channel. */
  datatype Pipeline = Pipeline(
    calls: nat,              // calls of iter.Next() so far
    displayed: nat,          // the producer's `displayed`: nodes admitted
    producer: ProducerPhase,
    done: bool,              // the shared `done` flag
    drain: DrainPhase,
    popped: nat,             // slots the calling goroutine took off the channel
    rendered: set<nat>,      // tickets whose render goroutine has its bytes ready
    written: nat,            // writes to the pager that succeeded
    out: seq<Byte>)          // what the pager received

  /** The inputs of one run: the nodes the iterator yields in order, `printCommit`
      as a function of the node, the normalised limit, the channel capacity, and
      which writes to the pager fail (by the number of the write). */
  datatype LogJob<!N> = LogJob(nodes: seq<N>, render: N -> seq<Byte>, limit: nat, capacity: nat, writeFails: nat -> bool)

  const Start: Pipeline := Pipeline(0, 0, NeedNext, false, Receiving, 0, {}, 0, [])

  /** What holds between steps. The channel holds the tickets admitted and not yet
      taken, in order; the pager holds the nodes written so far, in order. */
  ghost predicate Inv<N>(job: LogJob<N>, s: Pipeline, contents: seq<nat>, closed: bool) {
    && s.displayed <= |job.nodes| && s.displayed <= job.limit
    && (s.producer.NeedNext? ==> s.calls == s.displayed && !closed)
    && (s.producer.Pushing? ==>
          s.calls == s.displayed + 1 && s.displayed < |job.nodes| && s.displayed < job.limit && !closed)
    && (s.producer.ProducerDone? ==>
          s.calls == s.displayed + 1 && closed && (s.done || s.displayed == |job.nodes| || s.displayed == job.limit))
    && s.popped <= s.displayed && contents == Tickets(s.popped, s.displayed)
    && |contents| <= job.capacity
    && (forall j :: j in s.rendered ==> j < s.displayed) && |s.rendered| <= s.displayed
    && s.written <= s.popped
    && (forall i :: 0 <= i < s.written ==> !job.writeFails(i))
    && s.out == RenderAll(job.render, job.nodes[..s.written])
    && (s.drain.Receiving? ==> !s.done && s.written == s.popped)
    && (s.drain.Awaiting? ==> !s.done && s.drain.ticket == s.written && s.popped == s.written + 1)
    && (s.drain.Discarding? ==> s.done && s.written < s.popped && job.writeFails(s.written))
    && (s.drain.DrainDone? ==>
          closed && s.popped == s.displayed
          && if s.done then s.written < s.popped && job.writeFails(s.written) else s.written == s.popped)
  }

  /** Work left to the producer: each of its steps lowers this. */
  function ProducerLeft<N>(job: LogJob<N>, s: Pipeline): nat
    requires s.calls <= |job.nodes| + 1
  {
    2 * (|job.nodes| + 1 - s.calls) + (if s.producer.Pushing? then 1 else 0)
  }

  /** Work left to the other goroutines: each of their steps lowers this. */
  function DrainLeft(s: Pipeline): nat
    requires s.popped <= s.displayed && |s.rendered| <= s.displayed
  {
    2 * (s.displayed - s.popped) + (s.displayed - |s.rendered|)
    + match s.drain
      case DrainDone => 0
      case Discarding => 1
      case Receiving => 2
      case Awaiting(_) => 3
  }

  /** `(t1, t2)` is below `(s1, s2)` in the lexicographic order. */
  predicate Below(t1: nat, t2: nat, s1: nat, s2: nat) {
    t1 < s1 || (t1 == s1 && t2 < s2)
  }

  /** The producer admits the node that `iter.Next()` returned. */
  lemma AdmitKeeps<N>(job: LogJob<N>, s: Pipeline, contents: seq<nat>, closed: bool)
    requires Inv(job, s, contents, closed) && s.producer.NeedNext?
    requires !s.done && s.displayed < |job.nodes| && s.displayed < job.limit
    ensures Inv(job, s.(calls := s.calls + 1, producer := Pushing), contents, closed)
  {
  }

  /** The loop condition fails after `iter.Next()`: the producer closes the channel. */
  lemma StopKeeps<N>(job: LogJob<N>, s: Pipeline, contents: seq<nat>, closed: bool)
    requires Inv(job, s, contents, closed) && s.producer.NeedNext?
    requires !(!s.done && s.displayed < |job.nodes| && s.displayed < job.limit)
    ensures Inv(job, s.(calls := s.calls + 1, producer := ProducerDone), contents, true)
  {
  }

  /** The producer pushes the slot of the node it admitted. */
  lemma PushKeeps<N>(job: LogJob<N>, s: Pipeline, contents: seq<nat>, closed: bool)
    requires Inv(job, s, contents, closed) && s.producer.Pushing? && |contents| < job.capacity
    ensures Inv(job, s.(displayed := s.displayed + 1, producer := NeedNext), contents + [s.displayed], closed)
  {
    assert contents + [s.displayed] == Tickets(s.popped, s.displayed + 1);
  }

  /** The calling goroutine takes the oldest slot off the channel, to wait for it. */
  lemma TakeKeeps<N>(job: LogJob<N>, s: Pipeline, contents: seq<nat>, closed: bool)
    requires Inv(job, s, contents, closed) && s.drain.Receiving? && contents != []
    ensures contents[0] == s.popped
    ensures Inv(job, s.(popped := s.popped + 1, drain := Awaiting(s.popped)), contents[1..], closed)
  {
    assert contents[1..] == Tickets(s.popped + 1, s.displayed);
  }

  /** The calling goroutine throws the oldest slot away after a failed write. */
  lemma DiscardKeeps<N>(job: LogJob<N>, s: Pipeline, contents: seq<nat>, closed: bool)
    requires Inv(job, s, contents, closed) && s.drain.Discarding? && contents != []
    ensures Inv(job, s.(popped := s.popped + 1), contents[1..], closed)
  {
    assert contents[1..] == Tickets(s.popped + 1, s.displayed);
  }

  /** A `range` over the closed, drained channel ends: nomsCmdLog returns. */
  lemma EndKeeps<N>(job: LogJob<N>, s: Pipeline, contents: seq<nat>, closed: bool)
    requires Inv(job, s, contents, closed) && (s.drain.Receiving? || s.drain.Discarding?)
    requires contents == [] && closed
    ensures Inv(job, s.(drain := DrainDone), contents, closed)
  {
  }

  /** The bytes of the awaited node reach the pager. */
  lemma WriteKeeps<N>(job: LogJob<N>, s: Pipeline, contents: seq<nat>, closed: bool)
    requires Inv(job, s, contents, closed) && s.drain.Awaiting? && !job.writeFails(s.written)
    ensures s.drain.ticket < |job.nodes|
    ensures Inv(job, s.(written := s.written + 1, out := s.out + job.render(job.nodes[s.drain.ticket]), drain := Receiving),
                contents, closed)
  {
    var w := s.written;
    assert job.nodes[..w + 1][..w] == job.nodes[..w];
  }

  /** The write of the awaited node fails: `done = true`, and the drain begins. */
  lemma FailKeeps<N>(job: LogJob<N>, s: Pipeline, contents: seq<nat>, closed: bool)
    requires Inv(job, s, contents, closed) && s.drain.Awaiting? && job.writeFails(s.written)
    ensures Inv(job, s.(done := true, drain := Discarding), contents, closed)
  {
  }

  /** The pipeline state and the channel after a move. */
  datatype After = After(state: Pipeline, contents: seq<nat>, closed: bool)

  /** The move of the producer goroutine from `s` with the channel holding `c`
      (closed when `cl`), or None while it is blocked. */
  ghost function ProducerNext<N>(job: LogJob<N>, s: Pipeline, c: seq<nat>, cl: bool): Option<After> {
    match s.producer
    case NeedNext =>
      if !s.done && s.displayed < |job.nodes| && s.displayed < job.limit then
        Some(After(s.(calls := s.calls + 1, producer := Pushing), c, cl))
      else
        Some(After(s.(calls := s.calls + 1, producer := ProducerDone), c, true))
    case Pushing =>
      if |c| < job.capacity then Some(After(s.(displayed := s.displayed + 1, producer := NeedNext), c + [s.displayed], cl))
      else None
    case ProducerDone => None
  }

  /** The move of the calling goroutine, or None while it is blocked. */
  ghost function DrainNext<N>(job: LogJob<N>, s: Pipeline, c: seq<nat>, cl: bool): Option<After>
    requires Inv(job, s, c, cl)
  {
    match s.drain
    case Receiving =>
      if c != [] then Some(After(s.(popped := s.popped + 1, drain := Awaiting(c[0])), c[1..], cl))
      else if cl then Some(After(s.(drain := DrainDone), c, cl))
      else None
    case Awaiting(j) =>
      if j !in s.rendered then None
      else if job.writeFails(s.written) then Some(After(s.(done := true, drain := Discarding), c, cl))
      else Some(After(s.(written := s.written + 1, out := s.out + job.render(job.nodes[j]), drain := Receiving), c, cl))
    case Discarding =>
      if c != [] then Some(After(s.(popped := s.popped + 1), c[1..], cl))
      else if cl then Some(After(s.(drain := DrainDone), c, cl))
      else None
    case DrainDone => None
  }

  /** The goroutine `m` can move from `s`. */
  ghost predicate Enabled<N>(job: LogJob<N>, s: Pipeline, c: seq<nat>, cl: bool, m: Turn)
    requires Inv(job, s, c, cl)
  {
    match m
    case RunProducer => ProducerNext(job, s, c, cl).Some?
    case RunDrain => DrainNext(job, s, c, cl).Some?
    case RunRender(j) => j < s.displayed && j !in s.rendered
  }

  /** The goroutine `m` moves from `(s, c, cl)` to `a`. */
  ghost predicate Transition<N>(job: LogJob<N>, s: Pipeline, c: seq<nat>, cl: bool, m: Turn, a: After)
    requires Inv(job, s, c, cl)
  {
    match m
    case RunProducer => ProducerNext(job, s, c, cl) == Some(a)
    case RunDrain => DrainNext(job, s, c, cl) == Some(a)
    case RunRender(j) => j < s.displayed && j !in s.rendered && a == After(s.(rendered := s.rendered + {j}), c, cl)
  }

  /** Every move of the producer keeps the invariant and lowers its remaining work. */
  lemma ProducerMoveKeeps<N>(job: LogJob<N>, s: Pipeline, c: seq<nat>, cl: bool)
    requires Inv(job, s, c, cl) && ProducerNext(job, s, c, cl).Some?
    ensures var a := ProducerNext(job, s, c, cl).value;
      Inv(job, a.state, a.contents, a.closed) && ProducerLeft(job, a.state) < ProducerLeft(job, s)
  {
    match s.producer
    case NeedNext =>
      if !s.done && s.displayed < |job.nodes| && s.displayed < job.limit {
        AdmitKeeps(job, s, c, cl);
      } else {
        StopKeeps(job, s, c, cl);
      }
    case Pushing =>
      PushKeeps(job, s, c, cl);
  }

  /** Every move of the calling goroutine keeps the invariant and lowers the
      remaining work of the other goroutines, and leaves the producer as it is. */
  lemma DrainMoveKeeps<N>(job: LogJob<N>, s: Pipeline, c: seq<nat>, cl: bool)
    requires Inv(job, s, c, cl) && DrainNext(job, s, c, cl).Some?
    ensures var a := DrainNext(job, s, c, cl).value;
      && Inv(job, a.state, a.contents, a.closed) && DrainLeft(a.state) < DrainLeft(s)
      && a.state.calls == s.calls && a.state.producer == s.producer && a.closed == cl
  {
    match s.drain
    case Receiving =>
      if c != [] { TakeKeeps(job, s, c, cl); } else { EndKeeps(job, s, c, cl); }
    case Awaiting(j) =>
      if job.writeFails(s.written) { FailKeeps(job, s, c, cl); } else { WriteKeeps(job, s, c, cl); }
    case Discarding =>
      if c != [] { DiscardKeeps(job, s, c, cl); } else { EndKeeps(job, s, c, cl); }
  }

  /** One step of the producer goroutine, if it can take one. */
  method ProducerStep<N>(job: LogJob<N>, s: Pipeline, q: SlotQueue) returns (t: Pipeline, moved: bool)
    requires q.Valid() && q.buf.Length == job.capacity && Inv(job, s, q.Contents, q.closed)
    modifies q, q.buf
    ensures q.Valid() && q.buf == old(q.buf) && Inv(job, t, q.Contents, q.closed)
    ensures moved ==> ProducerLeft(job, t) < ProducerLeft(job, s)
    ensures moved == ProducerNext(job, s, old(q.Contents), old(q.closed)).Some?
    ensures moved ==> Transition(job, s, old(q.Contents), old(q.closed), RunProducer, After(t, q.Contents, q.closed))
    ensures !moved ==> t == s && q.Contents == old(q.Contents) && q.closed == old(q.closed)
    ensures !moved ==> s.producer.ProducerDone? || (s.producer.Pushing? && |q.Contents| == job.capacity)
  {
    ghost var c0, cl0 := q.Contents, q.closed;
    match s.producer {
    case NeedNext =>
      // `ln, ok := iter.Next()`, then the loop condition `!done && ok && displayed < o.maxCommits`
      var ok := s.displayed < |job.nodes|;
      if !s.done && ok && s.displayed < job.limit {
        t := s.(calls := s.calls + 1, producer := Pushing);
      } else {
        q.Close();
        t := s.(calls := s.calls + 1, producer := ProducerDone);
      }
      moved := true;
    case Pushing =>
      // `bytesChan <- ch`; then the render goroutine of the node starts and `displayed++`
      moved := q.TryPush(s.displayed);
      t := if moved then s.(displayed := s.displayed + 1, producer := NeedNext) else s;
    case ProducerDone =>
      t, moved := s, false;
    }
    if moved {
      assert ProducerNext(job, s, c0, cl0) == Some(After(t, q.Contents, q.closed));
      ProducerMoveKeeps(job, s, c0, cl0);
    }
  }

  /** One step of the calling goroutine, if it can take one. */
  method DrainStep<N>(job: LogJob<N>, s: Pipeline, q: SlotQueue) returns (t: Pipeline, moved: bool)
    requires q.Valid() && q.buf.Length == job.capacity && Inv(job, s, q.Contents, q.closed)
    modifies q
    ensures q.Valid() && q.buf == old(q.buf) && q.closed == old(q.closed) && Inv(job, t, q.Contents, q.closed)
    ensures t.calls == s.calls && t.producer == s.producer
    ensures moved ==> DrainLeft(t) < DrainLeft(s)
    ensures moved == DrainNext(job, s, old(q.Contents), old(q.closed)).Some?
    ensures moved ==> Transition(job, s, old(q.Contents), old(q.closed), RunDrain, After(t, q.Contents, q.closed))
    ensures !moved ==> t == s && q.Contents == old(q.Contents)
    ensures !moved ==>
      || s.drain.DrainDone?
      || (s.drain.Awaiting? && s.drain.ticket !in s.rendered)
      || ((s.drain.Receiving? || s.drain.Discarding?) && q.Contents == [] && !q.closed)
  {
    ghost var c0, cl0 := q.Contents, q.closed;
    match s.drain {
    case Receiving =>
      // `for ch := range bytesChan`
      var r := q.TryReceive();
      match r {
        case Got(j) =>
          t, moved := s.(popped := s.popped + 1, drain := Awaiting(j)), true;
        case ClosedEmpty =>
          t, moved := s.(drain := DrainDone), true;
        case WouldBlock =>
          t, moved := s, false;
      }
    case Awaiting(j) =>
      // `commitBuff := <-ch`, then `io.Copy(pgr.Writer, ...)`
      if j in s.rendered {
        if job.writeFails(s.written) {
          t := s.(done := true, drain := Discarding);
        } else {
          assert j < |job.nodes|;
          t := s.(written := s.written + 1, out := s.out + job.render(job.nodes[j]), drain := Receiving);
        }
        moved := true;
      } else {
        t, moved := s, false;
      }
    case Discarding =>
      // `for range bytesChan { }`
      var r := q.TryReceive();
      match r {
        case Got(_) =>
          t, moved := s.(popped := s.popped + 1), true;
        case ClosedEmpty =>
          t, moved := s.(drain := DrainDone), true;
        case WouldBlock =>
          t, moved := s, false;
      }
    case DrainDone =>
      t, moved := s, false;
    }
    if moved {
      assert DrainNext(job, s, c0, cl0) == Some(After(t, q.Contents, q.closed));
      DrainMoveKeeps(job, s, c0, cl0);
    }
  }

  /** The render goroutine of ticket `j`, started and not finished, has its bytes ready. */
  method RenderStep<N>(job: LogJob<N>, s: Pipeline, ghost contents: seq<nat>, closed: bool, j: nat) returns (t: Pipeline)
    requires Inv(job, s, contents, closed) && j < s.displayed && j !in s.rendered
    ensures Inv(job, t, contents, closed)
    ensures t.calls == s.calls && t.producer == s.producer && DrainLeft(t) < DrainLeft(s)
    ensures Transition(job, s, contents, closed, RunRender(j), After(t, contents, closed))
  {
    t := s.(rendered := s.rendered + {j});
    BoundedSetSize(t.rendered, t.displayed);
  }

  /** A goroutine that can run: the producer, else the calling goroutine, else the
      render goroutine it waits for. One of them always can until the calling
      goroutine has returned. */
  method Fallback<N>(job: LogJob<N>, s: Pipeline, q: SlotQueue) returns (t: Pipeline, ghost m: Turn)
    requires q.Valid() && q.buf.Length == job.capacity && Inv(job, s, q.Contents, q.closed)
    requires !s.drain.DrainDone?
    modifies q, q.buf
    ensures q.Valid() && q.buf == old(q.buf) && Inv(job, t, q.Contents, q.closed)
    ensures Transition(job, s, old(q.Contents), old(q.closed), m, After(t, q.Contents, q.closed))
    ensures Below(ProducerLeft(job, t), DrainLeft(t), ProducerLeft(job, s), DrainLeft(s))
  {
    var moved: bool;
    t, moved := ProducerStep(job, s, q);
    m := RunProducer;
    if !moved {
      t, moved := DrainStep(job, s, q);
      m := RunDrain;
      if !moved {
        t := RenderStep(job, s, q.Contents, q.closed, s.drain.ticket);
        m := RunRender(s.drain.ticket);
      }
    }
  }

  /** The step the schedule asks for, or the fallback when that goroutine is blocked. */
  method Step<N>(job: LogJob<N>, s: Pipeline, q: SlotQueue, turn: Turn) returns (t: Pipeline, ghost m: Turn)
    requires q.Valid() && q.buf.Length == job.capacity && Inv(job, s, q.Contents, q.closed)
    requires !s.drain.DrainDone?
    modifies q, q.buf
    ensures q.Valid() && q.buf == old(q.buf) && Inv(job, t, q.Contents, q.closed)
    ensures Transition(job, s, old(q.Contents), old(q.closed), m, After(t, q.Contents, q.closed))
    ensures Enabled(job, s, old(q.Contents), old(q.closed), turn) ==> m == turn
    ensures Below(ProducerLeft(job, t), DrainLeft(t), ProducerLeft(job, s), DrainLeft(s))
  {
    var moved := false;
    m := turn;
    ghost var c0, cl0 := q.Contents, q.closed;
    match turn {
      case RunProducer =>
        t, moved := ProducerStep(job, s, q);
      case RunDrain =>
        t, moved := DrainStep(job, s, q);
      case RunRender(j) =>
        if j < s.displayed && j !in s.rendered {
          t := RenderStep(job, s, q.Contents, q.closed, j);
          moved := true;
        } else {
          t := s;
        }
    }
    if !moved {
      assert !Enabled(job, s, c0, cl0, turn);
      t, m := Fallback(job, s, q);
    }
  }

  /** While no write has failed, the nodes admitted and not yet written are the
      slots in the channel and at most the one the calling goroutine waits for:
      up to `parallelism + 1` of them. */
  lemma AheadOfWriter<N>(job: LogJob<N>, s: Pipeline, contents: seq<nat>, closed: bool)
    requires Inv(job, s, contents, closed) && !s.done
    ensures s.written <= s.displayed && s.displayed - s.written <= |contents| + 1
  {
  }

  /** The goroutines of one run of nomsCmdLog under the schedule `sched`, from the
      start until the calling goroutine returns: the final state, the most slots
      the channel held, and the most nodes admitted and not yet written while no
      write had failed. */
  method RunGoroutines<N>(job: LogJob<N>, sched: nat -> Turn) returns (s: Pipeline, peakBuffered: nat, peakAhead: nat)
    requires job.capacity > 0
    ensures s.drain.DrainDone? && Inv(job, s, [], true)
    ensures peakBuffered <= job.capacity && peakAhead <= job.capacity + 1
  {
    var q := new SlotQueue(job.capacity);
    s := Start;
    var step: nat := 0;
    peakBuffered, peakAhead := 0, 0;
    while !s.drain.DrainDone?
      invariant fresh(q) && fresh(q.buf)
      invariant q.Valid() && q.buf.Length == job.capacity && Inv(job, s, q.Contents, q.closed)
      invariant peakBuffered <= job.capacity && peakAhead <= job.capacity + 1
      decreases ProducerLeft(job, s), DrainLeft(s)
    {
      ghost var m;
      s, m := Step(job, s, q, sched(step));
      step := step + 1;
      var n := q.Len();
      if n > peakBuffered {
        peakBuffered := n;
      }
      if !s.done {
        AheadOfWriter(job, s, q.Contents, q.closed);
        if s.displayed - s.written > peakAhead {
          peakAhead := s.displayed - s.written;
        }
      }
    }
  }

  /** What one call of nomsCmdLog did: the error it returned, the bytes the pager
      received, how often it called `iter.Next()`, how many nodes the producer
      admitted, how many writes succeeded, whether a write failed, the most slots
      the channel ever held, and the most nodes ever admitted and not yet written
      while no write had failed. */
  datatype LogRun = LogRun(
    err: Option<LogError>, out: seq<Byte>, nextCalls: nat, admitted: nat, written: nat,
    writeFailed: bool, peakBuffered: nat, peakAhead: nat)

  /** nomsCmdLog on a dataset whose head is `head` and whose commit iterator yields
      `nodes`, with `printCommit` as `render`, under the schedule `sched`. */
  method NomsCmdLog<N>(head: Head, nodes: seq<N>, render: N -> seq<Byte>, maxCommits: int,
                       parallelism: nat, writeFails: nat -> bool, sched: nat -> Turn) returns (run: LogRun)
    requires parallelism > 0
    ensures head != HeadValue(true) ==> run == LogRun(Some(NotACommit), [], 0, 0, 0, false, 0, 0)
    ensures head == HeadValue(true) ==>
      var limit := NormaliseLimit(maxCommits);
      && run.err == None
      && run.nextCalls == run.admitted + 1
      && run.admitted <= |nodes| && run.admitted <= limit
      && run.written <= run.admitted
      && run.out == RenderAll(render, nodes[..run.written])
      && run.out <= RenderAll(render, nodes[..Min(|nodes|, limit)])
      && (forall i :: 0 <= i < run.written ==> !writeFails(i))
      && (run.writeFailed ==> run.written < run.admitted && writeFails(run.written))
      && (!run.writeFailed ==> run.written == run.admitted == Min(|nodes|, limit))
      && run.peakBuffered <= parallelism && run.peakAhead <= parallelism + 1
  {
    if head != HeadValue(true) {
      return LogRun(Some(NotACommit), [], 0, 0, 0, false, 0, 0);
    }
    var limit := NormaliseLimit(maxCommits);
    var job := LogJob(nodes, render, limit, parallelism, writeFails);
    var s, peakBuffered, peakAhead := RunGoroutines(job, sched);
    run := LogRun(None, s.out, s.calls, s.displayed, s.written, s.done, peakBuffered, peakAhead);
    RenderAllPrefix(render, nodes[..Min(|nodes|, limit)], s.written);
    assert nodes[..Min(|nodes|, limit)][..s.written] == nodes[..s.written];
  }
}
