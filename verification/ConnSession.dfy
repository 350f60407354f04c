/** One fetch on one conn: what fetchSeries sends and what it makes of the messages it reads. */
module ConnSession {
  import opened Types
  import Decimal
  import opened Framing
  import opened Wire

  /** What a frame's JSON says: nothing of interest, an upstream error, or bars for some chart session. */
  datatype Meaning = Other | Refused | Bars(session: nat, candles: seq<Candle>)

  /** One read: an error, or a message, together with whether a pong for it can be sent. */
  datatype Incoming = ReadError | Message(raw: string, pongSent: bool)

  datatype Outcome = Candles(candles: seq<Candle>) | Failed | Panicked

  /** The first frame of a message that ends the fetch. */
  function FirstOutcome(frames: seq<string>, read: string -> Meaning): Option<Outcome> {
    if frames == [] then None
    else match read(frames[0])
      case Refused => Some(Failed)
      case Bars(_, candles) => if |candles| > 0 then Some(Candles(candles)) else FirstOutcome(frames[1..], read)
      case Other => FirstOutcome(frames[1..], read)
  }

  /** The read loop: how many pongs it sends and how it ends. It fails at the deadline, where the messages end. */
  function Listen(incoming: seq<Incoming>, read: string -> Meaning, jsonValid: string -> bool): (nat, Outcome) {
    if incoming == [] || incoming[0].ReadError? then (0, Failed)
    else if Framing.Pong(incoming[0].raw).Some? then
      if !incoming[0].pongSent then (0, Failed)
      else var (pongs, out) := Listen(incoming[1..], read, jsonValid); (pongs + 1, out)
    else match Decode(incoming[0].raw, jsonValid)
      case Panic => (0, Panicked)
      case Frames(bodies) =>
        match FirstOutcome(bodies, read)
        case Some(out) => (0, out)
        case None => Listen(incoming[1..], read, jsonValid)
  }

  /** Which of the four sends of a session succeed. */
  datatype Sends = Sends(create: bool, resolve: bool, subscribe: bool, delete: bool)

  /** What is sent in all: up to the first failure, then the deferred delete if the session was created. */
  function Exchange(chart: nat, series: nat, sends: Sends, pongs: nat): seq<Msg> {
    if !sends.create then []
    else
      (if !sends.resolve then [Create(chart)]
       else if !sends.subscribe then [Create(chart), Resolve(chart)]
       else Opening(chart, series, pongs))
      + if sends.delete then [Delete(chart)] else []
  }

  /** How fetchSeries ends, if the read loop would end as heard. */
  function FetchOutcome(sends: Sends, heard: Outcome): Outcome {
    if sends.create && sends.resolve && sends.subscribe then heard else Failed
  }

  class Conn {
    var sent: seq<Msg>

    constructor ()
      ensures sent == []
    {
      sent := [];
    }

    method Send(m: Msg, ok: bool)
      modifies this
      ensures sent == if ok then old(sent) + [m] else old(sent)
    {
      if ok {
        sent := sent + [m];
      }
    }

    method FetchSeries(chart: nat, series: nat, sends: Sends, incoming: seq<Incoming>, read: string -> Meaning,
                       jsonValid: string -> bool)
      returns (out: Outcome)
      modifies this
      ensures var (pongs, heard) := Listen(incoming, read, jsonValid);
              && out == FetchOutcome(sends, heard)
              && sent == old(sent) + Exchange(chart, series, sends, pongs)
    {
      hide Listen, Pongs;
      Send(Create(chart), sends.create);
      if !sends.create {
        return Failed;
      }
      out := Subscribe(chart, series, sends, incoming, read, jsonValid);
      Send(Delete(chart), sends.delete);
    }

    /** The part of fetchSeries that the deferred delete follows. */
    method Subscribe(chart: nat, series: nat, sends: Sends, incoming: seq<Incoming>, read: string -> Meaning,
                     jsonValid: string -> bool)
      returns (out: Outcome)
      modifies this
      ensures var (pongs, heard) := Listen(incoming, read, jsonValid);
              if !sends.resolve then out == Failed && sent == old(sent)
              else if !sends.subscribe then out == Failed && sent == old(sent) + [Resolve(chart)]
              else out == heard && sent == old(sent) + [Resolve(chart), CreateSeries(chart, series)] + Pongs(pongs)
    {
      hide Listen, Pongs;
      Send(Resolve(chart), sends.resolve);
      if !sends.resolve {
        return Failed;
      }
      Send(CreateSeries(chart, series), sends.subscribe);
      if !sends.subscribe {
        return Failed;
      }
      out := ReadLoop(incoming, read, jsonValid);
    }

    method ReadLoop(incoming: seq<Incoming>, read: string -> Meaning, jsonValid: string -> bool) returns (out: Outcome)
      modifies this
      ensures var (pongs, heard) := Listen(incoming, read, jsonValid);
              out == heard && sent == old(sent) + Pongs(pongs)
    {
      hide Decode, Framing.Pong, FirstOutcome;
      var i, pongs := 0, 0;
      assert incoming[0..] == incoming && Pongs(0) == [];
      while i < |incoming|
        invariant 0 <= i <= |incoming|
        invariant sent == old(sent) + Pongs(pongs)
        invariant var rest := Listen(incoming[i..], read, jsonValid);
                  Listen(incoming, read, jsonValid) == (pongs + rest.0, rest.1)
      {
        var msg := incoming[i];
        assert incoming[i..][0] == msg && incoming[i..][1..] == incoming[i + 1..];
        i := i + 1;
        if msg.ReadError? {
          return Failed;
        }
        if Framing.Pong(msg.raw).Some? {
          Send(Msg.Pong, msg.pongSent);
          if !msg.pongSent {
            return Failed;
          }
          pongs := pongs + 1;
          continue;
        }
        var p := DecodeFrames(msg.raw, jsonValid);
        if p.Panic? {
          return Panicked;
        }
        var first := FirstOutcome(p.bodies, read);
        if first.Some? {
          return first.value;
        }
      }
      return Failed;
    }
  }

  /** A fetch that got its candles leaves a conn whose trace stood between sessions there again, unless its delete was
      lost. */
  lemma FetchReturnsToReady(trace: seq<Msg>, chart: nat, series: nat, sends: Sends, pongs: nat)
    requires PhaseOf(trace, false) == Ready && sends.create && sends.resolve && sends.subscribe
    ensures PhaseOf(trace + Exchange(chart, series, sends, pongs), false)
         == if sends.delete then Ready else Streaming(chart)
  {
    var all := Opening(chart, series, pongs);
    OpeningStreams(trace, chart, series, pongs, false);
    assert all + [] == all;
    assert trace + (all + [Delete(chart)]) == trace + all + [Delete(chart)];
    PhaseAppend(trace + all, Delete(chart), false);
  }

  lemma {:induction false} PongsOnly(n: nat)
    ensures |Pongs(n)| == n && multiset(Pongs(n))[Msg.Pong] == n && forall m :: m in Pongs(n) ==> m == Msg.Pong
  {
    if n > 0 {
      PongsOnly(n - 1);
    }
  }

  /** The requests of a session, in their order. */
  function Requests(chart: nat, series: nat): seq<Msg> {
    [Create(chart), Resolve(chart), CreateSeries(chart, series)]
  }

  /** How many of them go out. */
  function Requested(sends: Sends): nat {
    if !sends.create then 0 else if !sends.resolve then 1 else if !sends.subscribe then 2 else 3
  }

  /** Whatever fails: the conn gets the requests of one session up to the first that fails; the pongs if none does; and
      the delete, as the last message, exactly if the session was created and the delete itself succeeds. */
  lemma ExchangeShape(chart: nat, series: nat, sends: Sends, pongs: nat) returns (answers: seq<Msg>)
    ensures var n := Requested(sends);
            var last := if sends.create && sends.delete then [Delete(chart)] else [];
            Exchange(chart, series, sends, pongs) == Requests(chart, series)[..n] + answers + last
    ensures |answers| == (if Requested(sends) == 3 then pongs else 0) && forall m :: m in answers ==> m == Msg.Pong
  {
    PongsOnly(pongs);
    answers := if Requested(sends) == 3 then Pongs(pongs) else [];
    hide Pongs;
    var all := Requests(chart, series);
    assert all[..0] == [] && all[..1] == [Create(chart)] && all[..2] == [Create(chart), Resolve(chart)]
           && all[..3] == all;
  }

  // ---------- whose candles ----------

  /** A frame that the loop passes over. */
  predicate Dull(body: string, read: string -> Meaning) {
    read(body).Other? || (read(body).Bars? && read(body).candles == [])
  }

  /** A message after which the loop reads on: a ping that is answered, whatever else it holds, or nothing but dull
      frames. */
  ghost predicate Passed(m: Incoming, read: string -> Meaning, jsonValid: string -> bool) {
    && m.Message?
    && if Index(m.raw, TAG) != -1 then m.pongSent
       else Decode(m.raw, jsonValid).Frames? && forall b :: b in Decode(m.raw, jsonValid).bodies ==> Dull(b, read)
  }

  /** Frame k is the first that is not dull, and it brings bars. */
  ghost predicate FirstBars(frames: seq<string>, k: nat, read: string -> Meaning) {
    k < |frames| && read(frames[k]).Bars? && !Dull(frames[k], read) && forall j :: 0 <= j < k ==> Dull(frames[j], read)
  }

  /** The fetch passes over the messages before i, and ends with the bars of frame k of message i, which has no ping in
      it. */
  ghost predicate Decides(incoming: seq<Incoming>, i: nat, k: nat, read: string -> Meaning, jsonValid: string -> bool) {
    && i < |incoming| && (forall j :: 0 <= j < i ==> Passed(incoming[j], read, jsonValid))
    && incoming[i].Message? && Index(incoming[i].raw, TAG) == -1
    && Decode(incoming[i].raw, jsonValid).Frames? && FirstBars(Decode(incoming[i].raw, jsonValid).bodies, k, read)
  }

  function FrameAt(incoming: seq<Incoming>, i: nat, k: nat, jsonValid: string -> bool): string
    requires i < |incoming| && incoming[i].Message?
    requires Decode(incoming[i].raw, jsonValid).Frames? && k < |Decode(incoming[i].raw, jsonValid).bodies|
  {
    Decode(incoming[i].raw, jsonValid).bodies[k]
  }

  lemma {:induction false} OutcomeAt(frames: seq<string>, k: nat, read: string -> Meaning)
    requires FirstBars(frames, k, read)
    ensures FirstOutcome(frames, read) == Some(Candles(read(frames[k]).candles))
    decreases k
  {
    if k > 0 {
      assert Dull(frames[0], read) && frames[1..][k - 1] == frames[k];
      assert forall j :: 0 <= j < k - 1 ==> frames[1..][j] == frames[j + 1];
      OutcomeAt(frames[1..], k - 1, read);
    }
  }

  lemma {:induction false} OutcomeFrom(frames: seq<string>, read: string -> Meaning) returns (k: nat)
    ensures FirstOutcome(frames, read).None? <==> forall b :: b in frames ==> Dull(b, read)
    ensures FirstOutcome(frames, read).Some? && FirstOutcome(frames, read).value.Candles? ==> FirstBars(frames, k, read)
  {
    k := 0;
    if frames != [] {
      assert frames == [frames[0]] + frames[1..];
      k := OutcomeFrom(frames[1..], read);
      if Dull(frames[0], read) {
        assert forall j :: 0 < j <= k < |frames| ==> frames[j] == frames[1..][j - 1];
        k := k + 1;
      } else {
        k := 0;
      }
    }
  }

  lemma PassedReadsOn(incoming: seq<Incoming>, read: string -> Meaning, jsonValid: string -> bool)
    requires incoming != [] && Passed(incoming[0], read, jsonValid)
    ensures Listen(incoming, read, jsonValid).1 == Listen(incoming[1..], read, jsonValid).1
  {
    hide Index, Decode;
    if Index(incoming[0].raw, TAG) == -1 {
      var k := OutcomeFrom(Decode(incoming[0].raw, jsonValid).bodies, read);
    }
  }

  lemma {:induction false} DecidesEnds(incoming: seq<Incoming>, i: nat, k: nat, read: string -> Meaning,
                                       jsonValid: string -> bool)
    requires Decides(incoming, i, k, read, jsonValid)
    ensures Listen(incoming, read, jsonValid).1 == Candles(read(FrameAt(incoming, i, k, jsonValid)).candles)
    decreases i
  {
    hide Index, Decode, Passed, FirstBars;
    if i > 0 {
      assert forall j :: 0 <= j < i ==> incoming[1..][j] == incoming[j + 1];
      DecidesEnds(incoming[1..], i - 1, k, read, jsonValid);
      PassedReadsOn(incoming, read, jsonValid);
    } else {
      OutcomeAt(Decode(incoming[0].raw, jsonValid).bodies, k, read);
    }
  }

  lemma {:induction false} DecidedBy(incoming: seq<Incoming>, read: string -> Meaning, jsonValid: string -> bool)
    returns (i: nat, k: nat)
    requires Listen(incoming, read, jsonValid).1.Candles?
    ensures Decides(incoming, i, k, read, jsonValid)
  {
    hide Index, Decode, FirstBars;
    var m := incoming[0];
    if Index(m.raw, TAG) == -1 {
      k := OutcomeFrom(Decode(m.raw, jsonValid).bodies, read);
    }
    if Index(m.raw, TAG) == -1 && FirstOutcome(Decode(m.raw, jsonValid).bodies, read).Some? {
      i := 0;
    } else {
      assert Passed(m, read, jsonValid);
      i, k := DecidedBy(incoming[1..], read, jsonValid);
      assert forall j :: 0 < j <= i ==> incoming[j] == incoming[1..][j - 1];
      i := i + 1;
    }
  }

  /** A fetch ends with candles exactly if some frame decides it, and then with that frame's. */
  lemma CandlesIffDecided(incoming: seq<Incoming>, read: string -> Meaning, jsonValid: string -> bool,
                          candles: seq<Candle>)
    ensures Listen(incoming, read, jsonValid).1 == Candles(candles)
       <==> exists i, k ::
              Decides(incoming, i, k, read, jsonValid) && read(FrameAt(incoming, i, k, jsonValid)).candles == candles
  {
    hide Listen, Decode, Index, Passed;
    if Listen(incoming, read, jsonValid).1.Candles? {
      var i, k := DecidedBy(incoming, read, jsonValid);
      DecidesEnds(incoming, i, k, read, jsonValid);
    }
    forall i, k | Decides(incoming, i, k, read, jsonValid)
      ensures Listen(incoming, read, jsonValid).1 == Candles(read(FrameAt(incoming, i, k, jsonValid)).candles)
    {
      DecidesEnds(incoming, i, k, read, jsonValid);
    }
  }

  // ---------- how the read loop ends ----------

  /** The loop takes the messages before n and goes on; then it ends, at message n or because there are no more. */
  ghost predicate EndsAt(incoming: seq<Incoming>, n: nat, read: string -> Meaning, jsonValid: string -> bool) {
    && n <= |incoming| && (forall j :: 0 <= j < n ==> Passed(incoming[j], read, jsonValid))
    && (n < |incoming| ==> !Passed(incoming[n], read, jsonValid))
  }

  predicate Tagged(m: Incoming) {
    m.Message? && Index(m.raw, TAG) != -1
  }

  /** The positions of the pings before n. */
  ghost function PingsBefore(incoming: seq<Incoming>, n: nat): set<int>
    requires n <= |incoming|
  {
    set j | 0 <= j < n && Tagged(incoming[j])
  }

  /** Frame k is the first that is not dull, and it is an upstream error. */
  ghost predicate FirstRefusal(frames: seq<string>, k: nat, read: string -> Meaning) {
    k < |frames| && read(frames[k]).Refused? && forall j :: 0 <= j < k ==> Dull(frames[j], read)
  }

  lemma {:induction false} RefusalFrom(frames: seq<string>, read: string -> Meaning) returns (k: nat)
    requires FirstOutcome(frames, read).Some? && !FirstOutcome(frames, read).value.Candles?
    ensures FirstRefusal(frames, k, read) && FirstOutcome(frames, read) == Some(Failed)
    decreases |frames|
  {
    if Dull(frames[0], read) {
      k := RefusalFrom(frames[1..], read);
      assert forall j :: 0 < j <= k + 1 ==> frames[j] == frames[1..][j - 1];
      k := k + 1;
    } else {
      k := 0;
    }
  }

  lemma {:induction false} RefusalAt(frames: seq<string>, k: nat, read: string -> Meaning)
    requires FirstRefusal(frames, k, read)
    ensures FirstOutcome(frames, read) == Some(Failed)
    decreases k
  {
    if k > 0 {
      assert Dull(frames[0], read) && frames[1..][k - 1] == frames[k];
      assert forall j :: 0 <= j < k - 1 ==> frames[1..][j] == frames[j + 1];
      RefusalAt(frames[1..], k - 1, read);
    }
  }

  /** The message m ends the loop with a panic: it has no ping in it, and the parser panics on it. */
  predicate EndsInPanic(m: Incoming, jsonValid: string -> bool) {
    m.Message? && !Tagged(m) && Decode(m.raw, jsonValid).Panic?
  }

  /** The message m ends the loop with candles: it has no ping in it, and its first frame that is not dull brings
      bars. */
  ghost predicate EndsInCandles(m: Incoming, read: string -> Meaning, jsonValid: string -> bool) {
    && m.Message? && !Tagged(m) && Decode(m.raw, jsonValid).Frames?
    && exists k :: FirstBars(Decode(m.raw, jsonValid).bodies, k, read)
  }

  /** The message m ends the loop with an error: the read failed, a ping could not be answered, or upstream refuses. */
  ghost predicate EndsInFailure(m: Incoming, read: string -> Meaning, jsonValid: string -> bool) {
    || m.ReadError? || (Tagged(m) && !m.pongSent)
    || (m.Message? && !Tagged(m) && Decode(m.raw, jsonValid).Frames?
        && exists k :: FirstRefusal(Decode(m.raw, jsonValid).bodies, k, read))
  }

  /** Every message that is not passed over ends the loop, in one of three ways. */
  lemma LastMessage(incoming: seq<Incoming>, read: string -> Meaning, jsonValid: string -> bool)
    requires incoming != [] && !Passed(incoming[0], read, jsonValid)
    ensures var m, (pongs, out) := incoming[0], Listen(incoming, read, jsonValid);
            && pongs == 0
            && (out.Panicked? <==> EndsInPanic(m, jsonValid))
            && (out.Candles? <==> EndsInCandles(m, read, jsonValid))
            && (out.Failed? <==> EndsInFailure(m, read, jsonValid))
  {
    hide Index, Decode, FirstBars, FirstRefusal;
    var m := incoming[0];
    if m.Message? && !Tagged(m) && Decode(m.raw, jsonValid).Frames? {
      LastFrame(Decode(m.raw, jsonValid).bodies, read);
    }
  }

  lemma LastFrame(frames: seq<string>, read: string -> Meaning)
    requires exists b :: b in frames && !Dull(b, read)
    ensures FirstOutcome(frames, read).Some? && !FirstOutcome(frames, read).value.Panicked?
    ensures FirstOutcome(frames, read).value.Candles? <==> exists k :: FirstBars(frames, k, read)
    ensures FirstOutcome(frames, read).value.Failed? <==> exists k :: FirstRefusal(frames, k, read)
  {
    var k := OutcomeFrom(frames, read);
    if !FirstOutcome(frames, read).value.Candles? {
      k := RefusalFrom(frames, read);
    }
    forall k | FirstBars(frames, k, read)
      ensures FirstOutcome(frames, read).value.Candles?
    {
      OutcomeAt(frames, k, read);
    }
    forall k | FirstRefusal(frames, k, read)
      ensures FirstOutcome(frames, read).value.Failed?
    {
      RefusalAt(frames, k, read);
    }
  }

  lemma PassedCounts(incoming: seq<Incoming>, read: string -> Meaning, jsonValid: string -> bool)
    requires incoming != [] && Passed(incoming[0], read, jsonValid)
    ensures Listen(incoming, read, jsonValid).0
         == Listen(incoming[1..], read, jsonValid).0 + if Tagged(incoming[0]) then 1 else 0
  {
    hide Index, Decode;
    if !Tagged(incoming[0]) {
      var k := OutcomeFrom(Decode(incoming[0].raw, jsonValid).bodies, read);
    }
  }

  lemma {:induction false} ListenFrom(incoming: seq<Incoming>, n: nat, k: nat, read: string -> Meaning,
                                      jsonValid: string -> bool)
    requires EndsAt(incoming, n, read, jsonValid) && k <= n
    ensures Listen(incoming, read, jsonValid).0 == Listen(incoming[k..], read, jsonValid).0 + |PingsBefore(incoming, k)|
    ensures Listen(incoming, read, jsonValid).1 == Listen(incoming[k..], read, jsonValid).1
    decreases k
  {
    hide Listen, Passed, Tagged;
    if k == 0 {
      assert incoming[0..] == incoming && PingsBefore(incoming, 0) == {};
    } else {
      ListenFrom(incoming, n, k - 1, read, jsonValid);
      var rest := incoming[k - 1..];
      assert rest[0] == incoming[k - 1] && rest[1..] == incoming[k..];
      PassedReadsOn(rest, read, jsonValid);
      PassedCounts(rest, read, jsonValid);
      var before := PingsBefore(incoming, k - 1);
      assert PingsBefore(incoming, k) == if Tagged(incoming[k - 1]) then before + {k - 1} else before;
    }
  }

  lemma {:induction false} EndsSomewhere(incoming: seq<Incoming>, read: string -> Meaning, jsonValid: string -> bool)
    returns (n: nat)
    ensures EndsAt(incoming, n, read, jsonValid)
  {
    hide Passed;
    if incoming == [] || !Passed(incoming[0], read, jsonValid) {
      n := 0;
    } else {
      n := EndsSomewhere(incoming[1..], read, jsonValid);
      assert forall j :: 0 < j <= n ==> incoming[j] == incoming[1..][j - 1];
      assert n < |incoming| - 1 ==> incoming[n + 1] == incoming[1..][n];
      n := n + 1;
    }
  }

  /** The loop ends at the first message that it does not pass over, or where the messages end. It answers exactly the
      pings before that, each once, and what ends it decides the outcome. */
  lemma LoopOutcome(incoming: seq<Incoming>, read: string -> Meaning, jsonValid: string -> bool) returns (n: nat)
    ensures EndsAt(incoming, n, read, jsonValid)
    ensures Listen(incoming, read, jsonValid).0 == |PingsBefore(incoming, n)|
    ensures var out := Listen(incoming, read, jsonValid).1;
            if n == |incoming| then out == Failed
            else
              && (out.Panicked? <==> EndsInPanic(incoming[n], jsonValid))
              && (out.Candles? <==> EndsInCandles(incoming[n], read, jsonValid))
              && (out.Failed? <==> EndsInFailure(incoming[n], read, jsonValid))
  {
    n := EndsSomewhere(incoming, read, jsonValid);
    ListenFrom(incoming, n, n, read, jsonValid);
    if n < |incoming| {
      assert incoming[n..][0] == incoming[n];
      LastMessage(incoming[n..], read, jsonValid);
    }
    hide Passed, EndsInPanic, EndsInCandles, EndsInFailure, PingsBefore;
  }

  /** At most one frame decides. */
  lemma DecidedOnce(incoming: seq<Incoming>, i: nat, k: nat, i': nat, k': nat, read: string -> Meaning,
                    jsonValid: string -> bool)
    requires Decides(incoming, i, k, read, jsonValid) && Decides(incoming, i', k', read, jsonValid)
    ensures i == i' && k == k'
  {
    hide Index, Decode;
  }

  /** What bars upstream has for which session: every non-empty frame tells the truth, and no others have those of
      chart. */
  ghost predicate Tells(read: string -> Meaning, has: (nat, seq<Candle>) -> bool, chart: nat) {
    && (forall body :: read(body).Bars? && read(body).candles != [] ==> has(read(body).session, read(body).candles))
    && (forall s, candles :: has(s, candles) && has(chart, candles) ==> s == chart)
  }

  /** The fetch ends with candles of its own chart exactly if the frame that decides carries its session id, which the
      code never checks. */
  lemma CandlesAreOwn(chart: nat, incoming: seq<Incoming>, read: string -> Meaning, jsonValid: string -> bool,
                      has: (nat, seq<Candle>) -> bool)
    requires Tells(read, has, chart)
    ensures var out := Listen(incoming, read, jsonValid).1;
            (out.Candles? && has(chart, out.candles)
             <==> exists i, k ::
                    && Decides(incoming, i, k, read, jsonValid)
                    && read(FrameAt(incoming, i, k, jsonValid)).session == chart)
  {
    hide Listen, Decode, Index, Passed;
    if Listen(incoming, read, jsonValid).1.Candles? {
      var i, k := DecidedBy(incoming, read, jsonValid);
      DecidesEnds(incoming, i, k, read, jsonValid);
    }
    forall i, k | Decides(incoming, i, k, read, jsonValid)
      ensures Listen(incoming, read, jsonValid).1 == Candles(read(FrameAt(incoming, i, k, jsonValid)).candles)
    {
      DecidesEnds(incoming, i, k, read, jsonValid);
    }
  }

  /** So bars of another chart's session, in a frame of their own, are returned as if they were asked for. */
  lemma OthersCandlesReturned(body: string, chart: nat, other: nat, candles: seq<Candle>, read: string -> Meaning,
                              jsonValid: string -> bool)
    requires |body| <= Decimal.MAX_INT && Index(EncodeFrame(body), TAG) == -1
    requires read(body) == Bars(other, candles) && other != chart && candles != []
    ensures var incoming := [Message(EncodeFrame(body), true)];
            && Listen(incoming, read, jsonValid) == (0, Candles(candles))
            && Decides(incoming, 0, 0, read, jsonValid) && read(FrameAt(incoming, 0, 0, jsonValid)).session != chart
  {
    hide Decode, EncodeFrame, Index;
    DecodeEncode(body, jsonValid);
  }

  ghost predicate SameUpToSession(read: string -> Meaning, other: string -> Meaning) {
    forall body ::
      && (read(body).Bars? <==> other(body).Bars?) && (read(body).Refused? <==> other(body).Refused?)
      && (read(body).Bars? ==> read(body).candles == other(body).candles)
  }

  /** The session ids in the frames play no part: with all of them changed, the fetch ends the same. */
  lemma {:induction false} SessionIgnored(incoming: seq<Incoming>, read: string -> Meaning, other: string -> Meaning,
                                          jsonValid: string -> bool)
    requires SameUpToSession(read, other)
    ensures Listen(incoming, read, jsonValid) == Listen(incoming, other, jsonValid)
  {
    if incoming != [] && incoming[0].Message? {
      SessionIgnored(incoming[1..], read, other, jsonValid);
      if Decode(incoming[0].raw, jsonValid).Frames? {
        SessionIgnoredInMessage(Decode(incoming[0].raw, jsonValid).bodies, read, other);
      }
    }
  }

  lemma {:induction false} SessionIgnoredInMessage(frames: seq<string>, read: string -> Meaning,
                                                   other: string -> Meaning)
    requires SameUpToSession(read, other)
    ensures FirstOutcome(frames, read) == FirstOutcome(frames, other)
  {
    if frames != [] {
      assert read(frames[0]).Bars? <==> other(frames[0]).Bars?;
      SessionIgnoredInMessage(frames[1..], read, other);
    }
  }

  /** A message that makes no difference to how a fetch ends, whatever follows it. */
  ghost predicate Dropped(m: Incoming, read: string -> Meaning, jsonValid: string -> bool) {
    forall rest :: Listen([m] + rest, read, jsonValid).1 == Listen(rest, read, jsonValid).1
  }

  /** A message whose bars would end the fetch is dropped, and answered as a ping, exactly if the heartbeat tag occurs
      anywhere in it. */
  lemma BarsDroppedIffTagged(raw: string, k: nat, read: string -> Meaning, jsonValid: string -> bool)
    requires Decode(raw, jsonValid).Frames? && FirstBars(Decode(raw, jsonValid).bodies, k, read)
    ensures Dropped(Message(raw, true), read, jsonValid) <==> Index(raw, TAG) != -1
  {
    hide Index, Decode, FirstBars;
    var m := Message(raw, true);
    if Index(raw, TAG) != -1 {
      forall rest
        ensures Listen([m] + rest, read, jsonValid).1 == Listen(rest, read, jsonValid).1
      {
        assert ([m] + rest)[1..] == rest;
        PassedReadsOn([m] + rest, read, jsonValid);
      }
    } else {
      OutcomeAt(Decode(raw, jsonValid).bodies, k, read);
      assert Listen([m] + [], read, jsonValid).1.Candles? && Listen([], read, jsonValid).1 == Failed;
    }
  }

  /** Bars batched behind a ping do not end the fetch. */
  lemma PingSwallowsBars(num: string, body: string, read: string -> Meaning, jsonValid: string -> bool)
    requires NoTilde(num) && |num| + 3 <= Decimal.MAX_INT && |body| <= Decimal.MAX_INT
    ensures var raw := EncodeFrame(TAG + num) + EncodeFrame(body);
            && Decode(raw, jsonValid) == Frames([TAG + num, body])
            && Listen([Message(raw, true)], read, jsonValid) == (1, Failed)
  {
    hide Framing.Pong, Decode, EncodeFrame;
    EncodedStartsWithMark(body);
    PingIsEchoed(num, EncodeFrame(body));
    DecodeTwo(TAG + num, body, jsonValid);
    var m := Message(EncodeFrame(TAG + num) + EncodeFrame(body), true);
    assert [m][1..] == [];
  }

  // ---------- session ids ----------

  /** genSessionID: the clock may repeat, the counter does not. */
  function SessionId(prefix: string, nanos: int, n: int): string {
    prefix + "_" + Decimal.Print(nanos) + "_" + Decimal.Print(n)
  }

  /** Ids drawn with different counter values differ, whatever their prefixes and times. */
  lemma SessionIdsDiffer(p: string, t: int, m: int, q: string, u: int, n: int)
    requires m != n
    ensures SessionId(p, t, m) != SessionId(q, u, n)
  {
    hide Decimal.Print;
    if SessionId(p, t, m) == SessionId(q, u, n) {
      Decimal.PrintHasNo('_', m);
      Decimal.PrintHasNo('_', n);
      var a, b := p + "_" + Decimal.Print(t), q + "_" + Decimal.Print(u);
      Decimal.SplitAtLast(a, Decimal.Print(m), b, Decimal.Print(n), '_');
      Decimal.PrintInjective(m, n);
    }
  }
}

/** What fetchSeries does on its conn is a run of the pool protocol. */
module SessionRefinement {
  import opened Types
  import Decimal
  import opened Framing
  import opened Wire
  import opened ConnSession
  import opened PoolProtocol
  import opened PoolSpec
  import opened PoolTheorems

  /** One read per message that the loop takes: a ping, nothing of interest, or what ends the loop. */
  function ReadEvents(f: nat, incoming: seq<Incoming>, read: string -> Meaning, jsonValid: string -> bool): seq<Event> {
    if incoming == [] || incoming[0].ReadError? then [Read(f, Failure)]
    else if Framing.Pong(incoming[0].raw).Some? then
      [Read(f, Ping(incoming[0].pongSent))]
      + if incoming[0].pongSent then ReadEvents(f, incoming[1..], read, jsonValid) else []
    else match Decode(incoming[0].raw, jsonValid)
      case Panic => [Read(f, Malformed)]
      case Frames(bodies) =>
        match FirstOutcome(bodies, read)
        case Some(out) => [Read(f, if out.Candles? then Data else Failure)]
        case None => [Read(f, Nothing)] + ReadEvents(f, incoming[1..], read, jsonValid)
  }

  /** Where the end of the loop leaves a fetch. */
  function LoopEnd(c: nat, i: nat, heard: Outcome): PC {
    match heard
    case Candles(_) => Deleting(c, i, true)
    case Failed => Deleting(c, i, false)
    case Panicked => Unwinding(c, i)
  }

  /** Where a fetch stands when fetchSeries has ended like this. */
  function EndOf(c: nat, out: Outcome): PC {
    match out
    case Candles(_) => Returning(c, true)
    case Failed => Returning(c, false)
    case Panicked => Crashed(c)
  }

  /** The protocol events of one fetch from its first send on, when its sends succeed as given and it takes these
      reads. */
  function Script(f: nat, sends: Sends, taken: seq<Event>): seq<Event> {
    if !sends.create then [Send(f, false)]
    else if !sends.resolve then [Send(f, true), Send(f, false), Send(f, sends.delete)]
    else if !sends.subscribe then [Send(f, true), Send(f, true), Send(f, false), Send(f, sends.delete)]
    else [Send(f, true), Send(f, true), Send(f, true)] + (taken + [Send(f, sends.delete)])
  }

  lemma AfterFirst(s: State, e: Event, es: seq<Event>, t: State)
    requires Next(s, e) == Some(t)
    ensures After(s, [e] + es) == After(t, es)
  {
    assert ([e] + es)[1..] == es;
  }

  /** t is s with fetch f at pc and its conn's trace extended by more. */
  ghost predicate Sent(s: State, t: State, f: nat, c: nat, pc: PC, more: seq<Msg>) {
    && f < |t.fetches| && t.fetches[f] == pc
    && c < |s.traces| && |t.traces| == |s.traces| && t.traces[c] == s.traces[c] + more
  }

  /** The events es take s to such a t. */
  ghost predicate Leads(s: State, es: seq<Event>, t: State, f: nat, c: nat, pc: PC, more: seq<Msg>) {
    After(s, es) == Some(t) && Sent(s, t, f, c, pc, more)
  }

  lemma LeadsOn(s: State, es: seq<Event>, t: State, f: nat, c: nat, pc: PC, more: seq<Msg>,
                fs: seq<Event>, u: State, qc: PC, rest: seq<Msg>)
    requires Leads(s, es, t, f, c, pc, more) && Leads(t, fs, u, f, c, qc, rest)
    ensures Leads(s, es + fs, u, f, c, qc, more + rest)
  {
    AfterBoth(s, es, t, fs);
    assert s.traces[c] + more + rest == s.traces[c] + (more + rest);
  }

  predicate Sending(pc: PC) {
    pc.Creating? || pc.Resolving? || pc.Subscribing? || pc.Deleting? || pc.Unwinding?
  }

  /** Where a send takes a fetch. */
  function PastSend(pc: PC, ok: bool): PC
    requires Sending(pc)
  {
    match pc
    case Creating(c, i, j) => if ok then Resolving(c, i, j) else Returning(c, false)
    case Resolving(c, i, j) => if ok then Subscribing(c, i, j) else Deleting(c, i, false)
    case Subscribing(c, i, j) => if ok then Reading(c, i, j) else Deleting(c, i, false)
    case Deleting(c, _, good) => Returning(c, good)
    case Unwinding(c, _) => Crashed(c)
  }

  /** What a send puts on the wire. */
  function Said(pc: PC, ok: bool): seq<Msg>
    requires Sending(pc)
  {
    if !ok then []
    else match pc
      case Creating(_, i, _) => [Create(i)]
      case Resolving(_, i, _) => [Resolve(i)]
      case Subscribing(_, i, j) => [CreateSeries(i, j)]
      case Deleting(_, i, _) => [Delete(i)]
      case Unwinding(_, i) => [Delete(i)]
  }

  lemma OneSend(s: State, f: nat, ok: bool) returns (t: State)
    requires f < |s.fetches| && Sending(s.fetches[f]) && s.fetches[f].conn < |s.traces|
    ensures Leads(s, [Send(f, ok)], t, f, s.fetches[f].conn, PastSend(s.fetches[f], ok), Said(s.fetches[f], ok))
  {
    t := SendStep(s, f, ok).value;
    assert Next(s, Send(f, ok)) == Some(t);
    hide Next;
    AfterFirst(s, Send(f, ok), [], t);
    assert [Send(f, ok)] + [] == [Send(f, ok)];
  }

  /** Where a read takes a fetch that is reading. */
  function PastRead(c: nat, i: nat, j: nat, got: Received): PC {
    match got
    case Ping(sent) => if sent then Reading(c, i, j) else Deleting(c, i, false)
    case Data => Deleting(c, i, true)
    case Failure => Deleting(c, i, false)
    case Malformed => Unwinding(c, i)
    case Nothing => Reading(c, i, j)
  }

  lemma OneRead(s: State, f: nat, c: nat, i: nat, j: nat, got: Received) returns (t: State)
    requires f < |s.fetches| && s.fetches[f] == Reading(c, i, j) && c < |s.traces|
    ensures Leads(s, [Read(f, got)], t, f, c, PastRead(c, i, j, got), if got == Ping(true) then [Msg.Pong] else [])
  {
    t := ReadStep(s, f, got).value;
    assert Next(s, Read(f, got)) == Some(t);
    hide Next;
    AfterFirst(s, Read(f, got), [], t);
    assert [Read(f, got)] + [] == [Read(f, got)];
  }

  lemma {:induction false} PongsFirst(n: nat)
    requires n > 0
    ensures Pongs(n) == [Msg.Pong] + Pongs(n - 1)
  {
    if n > 1 {
      PongsFirst(n - 1);
    }
  }

  lemma FramesNeverPanic(frames: seq<string>, read: string -> Meaning)
    ensures FirstOutcome(frames, read).Some? ==> !FirstOutcome(frames, read).value.Panicked?
    decreases |frames|
  {
    if frames != [] {
      FramesNeverPanic(frames[1..], read);
    }
  }

  /** The read that ends the loop. */
  lemma LastReadRuns(s: State, f: nat, c: nat, i: nat, j: nat, got: Received, heard: Outcome) returns (t: State)
    requires f < |s.fetches| && s.fetches[f] == Reading(c, i, j) && c < |s.traces| && got != Ping(true)
    requires PastRead(c, i, j, got) == LoopEnd(c, i, heard)
    ensures Leads(s, [Read(f, got)], t, f, c, LoopEnd(c, i, heard), Pongs(0))
  {
    t := OneRead(s, f, c, i, j, got);
  }

  lemma {:induction false} ReadsRun(s: State, f: nat, c: nat, i: nat, j: nat,
                                    incoming: seq<Incoming>, read: string -> Meaning, jsonValid: string -> bool)
    returns (t: State)
    requires f < |s.fetches| && s.fetches[f] == Reading(c, i, j) && c < |s.traces|
    ensures var (pongs, heard) := Listen(incoming, read, jsonValid);
            Leads(s, ReadEvents(f, incoming, read, jsonValid), t, f, c, LoopEnd(c, i, heard), Pongs(pongs))
    decreases |incoming|, 1
  {
    hide Next, After, Decode, Framing.Pong, Leads, FirstOutcome;
    if incoming == [] || incoming[0].ReadError? {
      t := LastReadRuns(s, f, c, i, j, Failure, Failed);
    } else if Framing.Pong(incoming[0].raw).Some? {
      if incoming[0].pongSent {
        t := OneMoreRead(s, f, c, i, j, Ping(true), incoming, read, jsonValid);
      } else {
        t := LastReadRuns(s, f, c, i, j, Ping(false), Failed);
        assert [Read(f, Ping(false))] + [] == [Read(f, Ping(false))];
      }
    } else {
      match Decode(incoming[0].raw, jsonValid)
      case Panic => t := LastReadRuns(s, f, c, i, j, Malformed, Panicked);
      case Frames(bodies) =>
        FramesNeverPanic(bodies, read);
        match FirstOutcome(bodies, read)
        case Some(out) => t := LastReadRuns(s, f, c, i, j, if out.Candles? then Data else Failure, out);
        case None => t := OneMoreRead(s, f, c, i, j, Nothing, incoming, read, jsonValid);
    }
  }

  /** A read after which the loop goes on. */
  lemma OneMoreRead(s: State, f: nat, c: nat, i: nat, j: nat, got: Received,
                    incoming: seq<Incoming>, read: string -> Meaning, jsonValid: string -> bool)
    returns (t: State)
    requires f < |s.fetches| && s.fetches[f] == Reading(c, i, j) && c < |s.traces| && incoming != []
    requires got == Ping(true) || got == Nothing
    ensures var (pongs, heard) := Listen(incoming[1..], read, jsonValid);
            Leads(s, [Read(f, got)] + ReadEvents(f, incoming[1..], read, jsonValid), t, f, c, LoopEnd(c, i, heard),
                  Pongs(if got.Ping? then pongs + 1 else pongs))
    decreases |incoming|, 0
  {
    hide Next, After, ReadEvents, Listen, Pongs;
    var (pongs, heard) := Listen(incoming[1..], read, jsonValid);
    var u := OneRead(s, f, c, i, j, got);
    t := ReadsRun(u, f, c, i, j, incoming[1..], read, jsonValid);
    var said := if got.Ping? then [Msg.Pong] else [];
    LeadsOn(s, [Read(f, got)], u, f, c, Reading(c, i, j), said,
            ReadEvents(f, incoming[1..], read, jsonValid), t, LoopEnd(c, i, heard), Pongs(pongs));
    PongsFirst(pongs + 1);
    assert [] + Pongs(pongs) == Pongs(pongs);
  }

  /** Once the series is requested: the reads and the deferred delete. */
  lemma StreamRun(s: State, f: nat, c: nat, i: nat, j: nat, delete: bool,
                  incoming: seq<Incoming>, read: string -> Meaning, jsonValid: string -> bool)
    returns (t: State)
    requires f < |s.fetches| && s.fetches[f] == Reading(c, i, j) && c < |s.traces|
    ensures var (pongs, heard) := Listen(incoming, read, jsonValid);
            Leads(s, ReadEvents(f, incoming, read, jsonValid) + [Send(f, delete)], t, f, c, EndOf(c, heard),
                  Pongs(pongs) + if delete then [Delete(i)] else [])
  {
    hide After, Next, ReadEvents, Listen, Pongs;
    var (pongs, heard) := Listen(incoming, read, jsonValid);
    var u := ReadsRun(s, f, c, i, j, incoming, read, jsonValid);
    t := OneSend(u, f, delete);
    LeadsOn(s, ReadEvents(f, incoming, read, jsonValid), u, f, c, LoopEnd(c, i, heard), Pongs(pongs),
            [Send(f, delete)], t, EndOf(c, heard), Said(LoopEnd(c, i, heard), delete));
  }

  /** From the subscription on. */
  lemma PastResolve(s: State, f: nat, c: nat, i: nat, j: nat, sends: Sends,
                  incoming: seq<Incoming>, read: string -> Meaning, jsonValid: string -> bool)
    returns (t: State, script: seq<Event>, pc: PC, more: seq<Msg>)
    requires f < |s.fetches| && s.fetches[f] == Subscribing(c, i, j) && c < |s.traces| && sends.create && sends.resolve
    ensures Leads(s, script, t, f, c, pc, more)
    ensures [Send(f, true), Send(f, true)] + script == Script(f, sends, ReadEvents(f, incoming, read, jsonValid))
    ensures var (pongs, heard) := Listen(incoming, read, jsonValid);
            pc == EndOf(c, FetchOutcome(sends, heard)) && [Create(i), Resolve(i)] + more == Exchange(i, j, sends, pongs)
  {
    hide After, Next, ReadEvents, Listen, Pongs;
    var (pongs, heard) := Listen(incoming, read, jsonValid);
    var u := OneSend(s, f, sends.subscribe);
    var last := if sends.delete then [Delete(i)] else [];
    if sends.subscribe {
      pc := EndOf(c, heard);
      var taken := ReadEvents(f, incoming, read, jsonValid);
      var tail, rest := taken + [Send(f, sends.delete)], Pongs(pongs) + last;
      t := StreamRun(u, f, c, i, j, sends.delete, incoming, read, jsonValid);
      LeadsOn(s, [Send(f, true)], u, f, c, Reading(c, i, j), [CreateSeries(i, j)], tail, t, pc, rest);
      script, more := [Send(f, true)] + tail, [CreateSeries(i, j)] + rest;
      assert [Send(f, true), Send(f, true)] + script == [Send(f, true), Send(f, true), Send(f, true)] + tail;
    } else {
      pc, more := Returning(c, false), last;
      t := OneSend(u, f, sends.delete);
      script := [Send(f, false)] + [Send(f, sends.delete)];
      LeadsOn(s, [Send(f, false)], u, f, c, Deleting(c, i, false), [], [Send(f, sends.delete)], t, pc, more);
      assert [] + more == more;
    }
  }

  /** From the resolve on. */
  lemma PastCreate(s: State, f: nat, c: nat, i: nat, j: nat, sends: Sends,
                  incoming: seq<Incoming>, read: string -> Meaning, jsonValid: string -> bool)
    returns (t: State, script: seq<Event>, pc: PC, more: seq<Msg>)
    requires f < |s.fetches| && s.fetches[f] == Resolving(c, i, j) && c < |s.traces| && sends.create
    ensures Leads(s, script, t, f, c, pc, more)
    ensures [Send(f, true)] + script == Script(f, sends, ReadEvents(f, incoming, read, jsonValid))
    ensures var (pongs, heard) := Listen(incoming, read, jsonValid);
            pc == EndOf(c, FetchOutcome(sends, heard)) && [Create(i)] + more == Exchange(i, j, sends, pongs)
  {
    hide After, Next, ReadEvents, Listen, Pongs;
    var (pongs, heard) := Listen(incoming, read, jsonValid);
    var u := OneSend(s, f, sends.resolve);
    if sends.resolve {
      var tail, rest;
      t, tail, pc, rest := PastResolve(u, f, c, i, j, sends, incoming, read, jsonValid);
      LeadsOn(s, [Send(f, true)], u, f, c, Subscribing(c, i, j), [Resolve(i)], tail, t, pc, rest);
      script, more := [Send(f, true)] + tail, [Resolve(i)] + rest;
      assert [Send(f, true)] + script == [Send(f, true), Send(f, true)] + tail;
      assert [Create(i)] + more == [Create(i), Resolve(i)] + rest;
    } else {
      pc, more := Returning(c, false), if sends.delete then [Delete(i)] else [];
      t := OneSend(u, f, sends.delete);
      script := [Send(f, false)] + [Send(f, sends.delete)];
      LeadsOn(s, [Send(f, false)], u, f, c, Deleting(c, i, false), [], [Send(f, sends.delete)], t, pc, more);
      assert [] + more == more;
    }
  }

  /** Whatever fails and whatever arrives, fetchSeries' exchange is a run of the protocol, one read per message: the
      same messages on the conn, the same outcome. */
  lemma FetchSeriesIsRun(s: State, f: nat, c: nat, i: nat, j: nat, sends: Sends, incoming: seq<Incoming>,
                         read: string -> Meaning, jsonValid: string -> bool)
    returns (t: State)
    requires f < |s.fetches| && s.fetches[f] == Creating(c, i, j) && c < |s.traces|
    ensures var (pongs, heard) := Listen(incoming, read, jsonValid);
            && After(s, Script(f, sends, ReadEvents(f, incoming, read, jsonValid))) == Some(t)
            && Sent(s, t, f, c, EndOf(c, FetchOutcome(sends, heard)), Exchange(i, j, sends, pongs))
  {
    hide After, Next, ReadEvents, Listen, Pongs;
    var u := OneSend(s, f, sends.create);
    if !sends.create {
      t := u;
    } else {
      var script, pc, more;
      t, script, pc, more := PastCreate(u, f, c, i, j, sends, incoming, read, jsonValid);
      LeadsOn(s, [Send(f, true)], u, f, c, Resolving(c, i, j), [Create(i)], script, t, pc, more);
    }
  }

  // ---------- bars of earlier sessions ----------

  /** Upstream sends bars only for sessions that were created on the conn. */
  ghost predicate OnlyOpened(read: string -> Meaning, trace: seq<Msg>) {
    forall body :: read(body).Bars? ==> Create(read(body).session) in trace
  }

  /** Then a fetch for chart on the conn is decided by its own bars, whatever arrives. */
  ghost predicate AlwaysOwn(trace: seq<Msg>, chart: nat, jsonValid: string -> bool) {
    forall read, incoming, i, k ::
      OnlyOpened(read, trace) && Decides(incoming, i, k, read, jsonValid) ==>
        read(FrameAt(incoming, i, k, jsonValid)).session == chart
  }

  /** That is so exactly for the first fetch on its conn. */
  lemma OwnIffFirst(s: State, f: nat, jsonValid: string -> bool)
    requires Reachable(s) && f < |s.fetches| && s.fetches[f].Reading? && s.fetches[f].conn < |s.traces|
    ensures var trace, chart := s.traces[s.fetches[f].conn], s.fetches[f].chart;
            AlwaysOwn(trace, chart, jsonValid) <==> forall m :: m in trace && m.Create? ==> m.chart == chart
  {
    hide Reachable, Decode, EncodeFrame, Passed, Index;
    var trace, chart := s.traces[s.fetches[f].conn], s.fetches[f].chart;
    if forall m :: m in trace && m.Create? ==> m.chart == chart {
      forall read, incoming, i, k | OnlyOpened(read, trace) && Decides(incoming, i, k, read, jsonValid)
        ensures read(FrameAt(incoming, i, k, jsonValid)).session == chart
      {
        assert Create(read(FrameAt(incoming, i, k, jsonValid)).session) in trace;
      }
    }
    forall m | m in trace && m.Create? && m.chart != chart
      ensures !AlwaysOwn(trace, chart, jsonValid)
    {
      var bars := [Candle(0, 0.0, 0.0, 0.0, 0.0, 0.0)];
      var read := (body: string) => Bars(m.chart, bars);
      EmptyFrameHasNoTag();
      OthersCandlesReturned("", chart, m.chart, bars, read, jsonValid);
      assert OnlyOpened(read, trace) && Decides([Message(EncodeFrame(""), true)], 0, 0, read, jsonValid);
    }
  }

  lemma TagHasLetter(s: string)
    ensures Index(s, TAG) != -1 ==> 'h' in s
  {
    var i := Index(s, TAG);
    if i != -1 {
      assert s[i..][1] == s[i + 1] == 'h';
    }
  }

  lemma EmptyFrameHasNoTag()
    ensures Index(EncodeFrame(""), TAG) == -1
  {
    TagHasLetter(EncodeFrame(""));
    assert EncodeFrame("") == "~m~0~m~";
  }

  lemma FinishFirst(s: State) returns (t: State)
    requires Reachable(s) && s.fetches == [Reading(0, 0, 1), Waiting] && s.held == 1 && s.vars == Vars([], false)
             && s.lossy == {}
    requires |s.traces| == 1 && Create(0) in s.traces[0]
    ensures Reachable(t) && t.fetches == [Finished, Waiting] && t.held == 0
            && t.vars == Vars([Idle(0, t.clock)], false) && t.lossy == {}
    ensures t.size == s.size && t.nextId == s.nextId && |t.traces| == 1 && Create(0) in t.traces[0]
  {
    hide Reachable;
    t := Go(s, Read(0, Data));
    t := Go(t, Event.Send(0, true));
    t := Go(t, GiveUp(0));
    t := Go(t, Release(0));
  }

  lemma SecondReads(s: State) returns (t: State)
    requires Reachable(s) && s.fetches == [Finished, Waiting] && s.held == 0 && s.size == 1 && s.lossy == {}
             && s.nextId == 2
    requires |s.traces| == 1 && Create(0) in s.traces[0] && s.vars == Vars([Idle(0, s.clock)], false)
    ensures Reachable(t) && t.fetches == [Finished, Reading(0, 2, 3)] && t.lossy == {} && |t.traces| == 1
            && Create(0) in t.traces[0]
  {
    hide Reachable;
    t := Go(s, Acquire(1));
    t := Go(t, Enter(1));
    t := Go(t, Draw(1));
    t := Go(t, Draw(1));
    t := Go(t, Event.Send(1, true));
    t := Go(t, Event.Send(1, true));
    t := Go(t, Event.Send(1, true));
  }

  /** And a fetch that is not the first happens: in some run a second fetch reads on a conn that has served another
      chart. If a late frame of that one arrives, its bars are what the fetch returns. */
  lemma LateFrameHappens(body: string, candles: seq<Candle>, read: string -> Meaning, jsonValid: string -> bool)
    returns (s: State)
    requires |body| <= Decimal.MAX_INT && Index(EncodeFrame(body), TAG) == -1
    requires read(body) == Bars(0, candles) && candles != []
    ensures Reachable(s) && s.fetches == [Finished, Reading(0, 2, 3)] && s.lossy == {} && |s.traces| == 1
            && Create(0) in s.traces[0]
    ensures Listen([Message(EncodeFrame(body), true)], read, jsonValid) == (0, Candles(candles))
  {
    OthersCandlesReturned(body, 2, 0, candles, read, jsonValid);
    hide Reachable, Listen, Decode, Decides, EncodeFrame, Index, Next;
    s := TwoFetches(1);
    s := FinishFirst(s);
    s := SecondReads(s);
  }
}
