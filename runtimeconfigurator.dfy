/**
 * The Runtime Configurator watcher: a poller that caches the last observed
 * content of one configuration variable and reports a change, a deletion or
 * an error on each call of Watch.
 *
 * Clock readings are inputs (time.Time as integer nanoseconds on one
 * timeline, time.Duration as integer nanoseconds); the remote service, the
 * timer/context select and the decoder are replaced by the results they
 * produce.
 */
module RuntimeConfigurator {
  import opened Wrappers

  newtype byte = x: int | 0 <= x < 256
  type Bytes = seq<byte>

  /** A time.Time, as nanoseconds since the Unix epoch. */
  type Time = int
  /** A time.Duration, in nanoseconds. */
  type Duration = int

  const Minute: Duration := 60 * 1_000_000_000
  /** Default for WatchOptions.WaitTime when it is not set or 0. */
  const DefaultWaitTimeout: Duration := 10 * Minute
  /** Go's zero time.Time (January 1, year 1, UTC): the updateTime of a fresh watcher. */
  const ZeroTime: Time := -62_135_596_800 * 1_000_000_000

  // ---------------------------------------------------------------------------
  // Construction: WaitTime validation and the resource name
  // ---------------------------------------------------------------------------

  datatype ConfigError = NegativeWaitTime(waitTime: Duration)

  /** The wait time NewVariable installs for a configured WaitTime option. */
  function ResolveWaitTime(waitTime: Duration): (r: Result<Duration, ConfigError>)
    ensures r.Failure? <==> waitTime < 0
    ensures r.Failure? ==> r.error == NegativeWaitTime(waitTime)
    ensures waitTime == 0 ==> r == Success(DefaultWaitTimeout)
    ensures waitTime > 0 ==> r == Success(waitTime)
    ensures r.Success? ==> r.value > 0
  {
    if waitTime == 0 then Success(DefaultWaitTimeout)
    else if waitTime < 0 then Failure(NegativeWaitTime(waitTime))
    else Success(waitTime)
  }

  /** The full path of a configuration variable as the service names it. */
  datatype ResourceName = ResourceName(projectID: string, config: string, variable: string) {

    function String(): (r: string)
      ensures |r| == 9 + |projectID| + 9 + |config| + 11 + |variable|
      ensures r[..9] == "projects/"
      ensures r[9..9 + |projectID|] == projectID
      ensures r[9 + |projectID|..18 + |projectID|] == "/configs/"
      ensures r[18 + |projectID|..18 + |projectID| + |config|] == config
      ensures r[18 + |projectID| + |config|..29 + |projectID| + |config|] == "/variables/"
      ensures r[29 + |projectID| + |config|..] == variable
    {
      "projects/" + (projectID + ("/configs/" + (config + ("/variables/" + variable))))
    }
  }

  predicate SlashFree(s: string) {
    forall i :: 0 <= i < |s| ==> s[i] != '/'
  }

  /** The index of the first '/' in t, or |t| when there is none. */
  function FirstSlash(t: string): (i: nat)
    ensures i <= |t|
    ensures forall k :: 0 <= k < i ==> t[k] != '/'
    ensures i < |t| ==> t[i] == '/'
  {
    if |t| == 0 || t[0] == '/' then 0 else 1 + FirstSlash(t[1..])
  }

  /** A slash-free segment followed by a '/' ends where the first '/' is. */
  lemma {:induction false} FirstSlashAfterSegment(u: string, t: string)
    requires SlashFree(u) && |t| > 0 && t[0] == '/'
    ensures FirstSlash(u + t) == |u|
    decreases |u|
  {
    if u != [] {
      assert (u + t)[1..] == u[1..] + t;
      FirstSlashAfterSegment(u[1..], t);
    }
  }

  /** A slash-free segment followed by a '/'-led tail can be split off in one way only. */
  lemma SplitAtFirstSlash(u: string, t: string, u': string, t': string)
    requires SlashFree(u) && |t| > 0 && t[0] == '/'
    requires SlashFree(u') && |t'| > 0 && t'[0] == '/'
    requires u + t == u' + t'
    ensures u == u' && t == t'
  {
    FirstSlashAfterSegment(u, t);
    FirstSlashAfterSegment(u', t');
    assert u == (u + t)[..|u|] && t == (u + t)[|u|..];
    assert u' == (u' + t')[..|u'|] && t' == (u' + t')[|u'|..];
  }

  /** The part of a path after its project segment determines config and variable. */
  lemma ConfigTailInjective(c: string, v: string, c': string, v': string)
    requires SlashFree(c) && SlashFree(c')
    requires "/configs/" + (c + ("/variables/" + v)) == "/configs/" + (c' + ("/variables/" + v'))
    ensures c == c' && v == v'
  {
    var t, t' := "/variables/" + v, "/variables/" + v';
    assert c + t == c' + t' by {
      assert c + t == ("/configs/" + (c + t))[9..];
      assert c' + t' == ("/configs/" + (c' + t'))[9..];
    }
    SplitAtFirstSlash(c, t, c', t');
    assert v == t[11..] && v' == t'[11..];
  }

  /**
   * The path determines the name: two names whose project and config
   * contain no '/' and whose paths agree are the same name. The variable
   * part may itself be hierarchical.
   */
  lemma ResourceNameInjective(x: ResourceName, y: ResourceName)
    requires SlashFree(x.projectID) && SlashFree(x.config)
    requires SlashFree(y.projectID) && SlashFree(y.config)
    requires x.String() == y.String()
    ensures x == y
  {
    var cx := "/configs/" + (x.config + ("/variables/" + x.variable));
    var cy := "/configs/" + (y.config + ("/variables/" + y.variable));
    assert x.projectID + cx == y.projectID + cy by {
      assert x.projectID + cx == ("projects/" + (x.projectID + cx))[9..];
      assert y.projectID + cy == ("projects/" + (y.projectID + cy))[9..];
    }
    SplitAtFirstSlash(x.projectID, cx, y.projectID, cy);
    ConfigTailInjective(x.config, x.variable, y.config, y.variable);
  }

  // ---------------------------------------------------------------------------
  // What one GetVariable call yields
  // ---------------------------------------------------------------------------

  /**
   * The contents oneof of a Variable message. A Go string is a byte
   * sequence, so the text case carries its bytes.
   */
  datatype Contents = ValueContents(value: Bytes) | TextContents(text: Bytes) | NoContents

  /** The update_time field, as parseUpdateTime judges it. */
  datatype Stamp = ValidStamp(time: Time) | InvalidStamp

  datatype VariableMsg = VariableMsg(name: string, contents: Contents, updateTime: Stamp)

  /** The gRPC status code NotFound. */
  const NotFoundCode: nat := 5

  /** An error from GetVariable: a gRPC status, or an error that carries none. */
  datatype RpcError = StatusError(code: nat, message: string) | PlainError(message: string)

  predicate IsNotFound(e: RpcError) {
    e.StatusError? && e.code == NotFoundCode
  }

  datatype FetchResult = Fetched(msg: VariableMsg) | RpcFailed(err: RpcError)

  datatype ContextError = Canceled | DeadlineExceeded

  /**
   * One pass of the Watch loop as its environment decides it: either the
   * context is done before the timer fires (no fetch is made), or the fetch
   * is made; rpcTime is the clock read right after the call, clock the one
   * read when a deletion is recorded.
   */
  datatype Poll =
    | ContextDone(ctxErr: ContextError)
    | Polled(result: FetchResult, rpcTime: Time, clock: Time)

  /** The payload of a fetched variable as bytes: the binary value, else the text. */
  function BytesFromProto(c: Contents): (b: Bytes)
    ensures c.ValueContents? ==> b == c.value
    ensures c.TextContents? ==> b == c.text
    ensures c.NoContents? ==> b == []
  {
    if c.ValueContents? then c.value
    else if c.TextContents? then c.text
    else []
  }

  datatype WatchError =
    | ContextErr(ctxErr: ContextError)
    | RpcErr(err: RpcError)
    | InvalidTimestamp(name: string)
    | DecodeErr(reason: string)

  function ParseUpdateTime(msg: VariableMsg): (r: Result<Time, WatchError>)
    ensures r.Success? <==> msg.updateTime.ValidStamp?
    ensures r.Success? ==> r.value == msg.updateTime.time
    ensures r.Failure? ==> r.error == InvalidTimestamp(msg.name)
  {
    match msg.updateTime
    case ValidStamp(t) => Success(t)
    case InvalidStamp => Failure(InvalidTimestamp(msg.name))
  }

  /** Byte comparison as the cache check performs it: a length test, then element by element. */
  method BytesNotEqual(a: Bytes, b: Bytes) returns (differ: bool)
    ensures differ <==> a != b
  {
    var n := |a|;
    if n != |b| {
      return true;
    }
    for i := 0 to n
      invariant forall k :: 0 <= k < i ==> a[k] == b[k]
    {
      if a[i] != b[i] {
        return true;
      }
    }
    return false;
  }

  // ---------------------------------------------------------------------------
  // The watcher state machine
  // ---------------------------------------------------------------------------

  /** The decoder installed at construction: bytes to a value, or a reason it failed. */
  type Decoder<V> = Bytes -> Result<V, string>

  datatype Variable<V> = Variable(value: V, updateTime: Time)

  /** What a call of Watch ends with; OutOfPolls when the oracle has no pass left. */
  datatype Outcome<V> = Delivered(variable: Variable<V>) | Errored(error: WatchError) | OutOfPolls

  /** The mutable fields of a watcher. */
  datatype WatchState = WatchState(bytes: Bytes, isDeleted: bool, updateTime: Time, lastRPCTime: Time)

  datatype StepResult<V> = Return(state: WatchState, outcome: Outcome<V>) | Continue(state: WatchState)

  /** The state of a watcher NewVariable creates at time now. */
  function InitialState(waitTime: Duration, now: Time): WatchState {
    WatchState([], false, ZeroTime, now - waitTime)
  }

  /**
   * The duration the timer of a pass started at time now is set to; it
   * fires at once exactly when a full wait has passed since the last RPC.
   */
  function PollDelay(s: WatchState, waitTime: Duration, now: Time): (d: Duration)
    ensures d <= 0 <==> now - s.lastRPCTime >= waitTime
    ensures now + d == s.lastRPCTime + waitTime
  {
    waitTime - (now - s.lastRPCTime)
  }

  /** A fresh watcher's first pass does not wait: its timer is set to at most zero. */
  lemma FirstPollImmediate(waitTime: Duration, created: Time, now: Time)
    requires now >= created
    ensures PollDelay(InitialState(waitTime, created), waitTime, now) <= 0
    ensures PollDelay(InitialState(waitTime, created), waitTime, now) == created - now
  {
  }

  /** One pass of the Watch loop: return with a result, or loop again. */
  function Step<V>(s: WatchState, decode: Decoder<V>, p: Poll): StepResult<V> {
    match p
    case ContextDone(e) => Return(s, Errored(ContextErr(e)))
    case Polled(result, rpcTime, clock) =>
      var s1 := s.(lastRPCTime := rpcTime);
      match result
      case Fetched(msg) =>
        (match ParseUpdateTime(msg)
         case Failure(e) => Return(s1, Errored(e))
         case Success(t) =>
           var b := BytesFromProto(msg.contents);
           if s.isDeleted || s.bytes != b then
             var s2 := s1.(bytes := b, updateTime := t, isDeleted := false);
             (match decode(b)
              case Failure(reason) => Return(s2, Errored(DecodeErr(reason)))
              case Success(v) => Return(s2, Delivered(Variable(v, t))))
           else
             Continue(s1))
      case RpcFailed(err) =>
        if !IsNotFound(err) then Return(s1, Errored(RpcErr(err)))
        else if !s.isDeleted then Return(s1.(isDeleted := true, updateTime := clock), Errored(RpcErr(err)))
        else Continue(s1)
  }

  datatype RunResult<V> = RunResult(state: WatchState, outcome: Outcome<V>, consumed: nat)

  /** Watch over a finite supply of passes: the final state, the outcome and how many passes were used. */
  function Run<V>(s: WatchState, decode: Decoder<V>, polls: seq<Poll>): (r: RunResult<V>)
    ensures r.consumed <= |polls|
    ensures r.outcome.OutOfPolls? ==> r.consumed == |polls|
    ensures !r.outcome.OutOfPolls? ==> 1 <= r.consumed
    decreases |polls|
  {
    if polls == [] then RunResult(s, OutOfPolls, 0)
    else
      match Step(s, decode, polls[0])
      case Return(s', out) => RunResult(s', out, 1)
      case Continue(s') =>
        var rest := Run(s', decode, polls[1..]);
        RunResult(rest.state, rest.outcome, rest.consumed + 1)
  }

  class Watcher<V> {
    const name: string
    const waitTime: Duration
    const decode: Decoder<V>
    var lastRPCTime: Time
    var bytes: Bytes
    var isDeleted: bool
    var updateTime: Time

    function State(): WatchState
      reads this
    {
      WatchState(bytes, isDeleted, updateTime, lastRPCTime)
    }

    /** The watcher literal NewVariable builds; lastRPCTime is set back one wait so the first pass fetches at once. */
    constructor (name: ResourceName, waitTime: Duration, decode: Decoder<V>, now: Time)
      ensures this.name == name.String() && this.waitTime == waitTime && this.decode == decode
      ensures State() == InitialState(waitTime, now)
    {
      this.name := name.String();
      this.waitTime := waitTime;
      this.decode := decode;
      lastRPCTime := now - waitTime;
      bytes := [];
      isDeleted := false;
      updateTime := ZeroTime;
    }

    /**
     * Blocks until the variable changes, the context is done or an error
     * occurs, consuming passes from polls; every fetch records its time.
     */
    method Watch(polls: seq<Poll>) returns (out: Outcome<V>, consumed: nat)
      modifies this
      ensures var run := Run(old(State()), decode, polls);
        out == run.outcome && consumed == run.consumed && State() == run.state
    {
      var i := 0;
      while i < |polls|
        invariant 0 <= i <= |polls|
        invariant var run := Run(old(State()), decode, polls);
          var rest := Run(State(), decode, polls[i..]);
          rest.outcome == run.outcome && rest.state == run.state && i + rest.consumed == run.consumed
        decreases |polls| - i
      {
        assert polls[i..][0] == polls[i] && polls[i..][1..] == polls[i + 1..];
        match polls[i] {
        case ContextDone(e) =>
          return Errored(ContextErr(e)), i + 1;
        case Polled(result, rpcTime, clock) =>
          lastRPCTime := rpcTime;
          match result
          case Fetched(msg) =>
            var parsed := ParseUpdateTime(msg);
            if parsed.Failure? {
              return Errored(parsed.error), i + 1;
            }
            var t := parsed.value;
            var b := BytesFromProto(msg.contents);
            var differ := BytesNotEqual(bytes, b);
            if isDeleted || differ {
              bytes, updateTime, isDeleted := b, t, false;
              match decode(b)
              case Failure(reason) =>
                return Errored(DecodeErr(reason)), i + 1;
              case Success(v) =>
                return Delivered(Variable(v, t)), i + 1;
            }
          case RpcFailed(err) =>
            if !IsNotFound(err) {
              return Errored(RpcErr(err)), i + 1;
            }
            if !isDeleted {
              isDeleted, updateTime := true, clock;
              return Errored(RpcErr(err)), i + 1;
            }
        }
        i := i + 1;
      }
      out, consumed := OutOfPolls, |polls|;
    }
  }

  datatype WatchOptions<V> = WatchOptions(waitTime: Duration, decode: Option<Decoder<V>>)

  /**
   * NewVariable: validates the options and builds a watcher at time now.
   * Absent options (a nil pointer) behave as zero options; defaultDecode
   * stands for the JSON decoder.
   */
  method NewVariable<V>(name: ResourceName, opts: Option<WatchOptions<V>>, defaultDecode: Decoder<V>, now: Time)
    returns (r: Result<Watcher<V>, ConfigError>)
    ensures var wt := if opts.Some? then opts.value.waitTime else 0;
      (r.Failure? <==> wt < 0) &&
      (r.Failure? ==> r.error == NegativeWaitTime(wt)) &&
      (r.Success? ==> fresh(r.value) && r.value.waitTime == ResolveWaitTime(wt).value > 0)
    ensures r.Success? ==> r.value.name == name.String()
    ensures r.Success? ==> r.value.State() == InitialState(r.value.waitTime, now)
    ensures r.Success? ==>
      r.value.decode == (if opts.Some? && opts.value.decode.Some? then opts.value.decode.value else defaultDecode)
  {
    var o := if opts.Some? then opts.value else WatchOptions(0, None);
    var waitTime := ResolveWaitTime(o.waitTime);
    if waitTime.Failure? {
      return Failure(waitTime.error);
    }
    var decode := if o.decode.Some? then o.decode.value else defaultDecode;
    var w := new Watcher(name, waitTime.value, decode, now);
    return Success(w);
  }

  // ---------------------------------------------------------------------------
  // Properties of one pass
  // ---------------------------------------------------------------------------

  /** Watch returns from a pass exactly when it has something to report. */
  lemma StepReturnsIff<V>(s: WatchState, decode: Decoder<V>, p: Poll)
    ensures Step(s, decode, p).Return? <==>
      match p
      case ContextDone(_) => true
      case Polled(Fetched(msg), _, _) =>
        msg.updateTime.InvalidStamp? || s.isDeleted || s.bytes != BytesFromProto(msg.contents)
      case Polled(RpcFailed(err), _, _) => !IsNotFound(err) || !s.isDeleted
  {
  }

  /** A pass that loops again changes nothing but lastRPCTime, which it sets to the fetch time. */
  lemma ContinueOnlyRecordsFetch<V>(s: WatchState, decode: Decoder<V>, p: Poll)
    requires Step(s, decode, p).Continue?
    ensures p.Polled? && Step(s, decode, p).state == s.(lastRPCTime := p.rpcTime)
  {
  }

  /** Every fetch records its time; a done context leaves the whole state alone. */
  lemma FetchRecordsTime<V>(s: WatchState, decode: Decoder<V>, p: Poll)
    ensures p.Polled? ==> Step(s, decode, p).state.lastRPCTime == p.rpcTime
    ensures p.ContextDone? ==> Step(s, decode, p) == Return(s, Errored(ContextErr(p.ctxErr)))
  {
  }

  /**
   * A fetch that is a change commits the new bytes and update time and
   * clears isDeleted before decoding, so a decode error still commits them.
   */
  lemma ChangeCommitsBeforeDecode<V>(s: WatchState, decode: Decoder<V>, msg: VariableMsg, rpcTime: Time, clock: Time)
    requires msg.updateTime.ValidStamp?
    requires s.isDeleted || s.bytes != BytesFromProto(msg.contents)
    ensures var b, t := BytesFromProto(msg.contents), msg.updateTime.time;
      var r := Step(s, decode, Polled(Fetched(msg), rpcTime, clock));
      r.Return? && r.state == WatchState(b, false, t, rpcTime) &&
      r.outcome == (if decode(b).Success? then Delivered(Variable(decode(b).value, t))
                    else Errored(DecodeErr(decode(b).error)))
  {
  }

  /** A value is delivered only for new information, and it carries the committed update time. */
  lemma DeliveredIsNew<V>(s: WatchState, decode: Decoder<V>, p: Poll)
    requires Step(s, decode, p).Return? && Step(s, decode, p).outcome.Delivered?
    ensures var r := Step(s, decode, p);
      (s.isDeleted || r.state.bytes != s.bytes) && !r.state.isDeleted &&
      r.outcome.variable.updateTime == r.state.updateTime &&
      decode(r.state.bytes) == Success(r.outcome.variable.value)
  {
  }

  /**
   * A NotFound error is reported only on the transition into the deleted
   * state, which records the clock reading and keeps the cached bytes.
   */
  lemma NotFoundReportedOnTransition<V>(s: WatchState, decode: Decoder<V>, p: Poll)
    requires Step(s, decode, p).Return? && Step(s, decode, p).outcome.Errored?
    requires Step(s, decode, p).outcome.error.RpcErr? && IsNotFound(Step(s, decode, p).outcome.error.err)
    ensures p.Polled? && !s.isDeleted
    ensures Step(s, decode, p).state == WatchState(s.bytes, true, p.clock, p.rpcTime)
  {
  }

  /**
   * Any other RPC error or an invalid timestamp returns that error and
   * leaves bytes, isDeleted and updateTime as they were.
   */
  lemma FailuresKeepCache<V>(s: WatchState, decode: Decoder<V>, p: Poll)
    requires p.Polled?
    requires (p.result.RpcFailed? && !IsNotFound(p.result.err)) ||
             (p.result.Fetched? && p.result.msg.updateTime.InvalidStamp?)
    ensures var r := Step(s, decode, p);
      r.Return? && r.state == s.(lastRPCTime := p.rpcTime) &&
      r.outcome == Errored(if p.result.RpcFailed? then RpcErr(p.result.err) else InvalidTimestamp(p.result.msg.name))
  {
  }

  /** After a deletion, any valid fetch is reported, even of the bytes cached before it. */
  lemma ReNotifyAfterDeletion<V>(s: WatchState, decode: Decoder<V>, msg: VariableMsg, rpcTime: Time, clock: Time)
    requires s.isDeleted && msg.updateTime.ValidStamp?
    ensures var r := Step(s, decode, Polled(Fetched(msg), rpcTime, clock));
      r.Return? && !r.state.isDeleted && r.state.bytes == BytesFromProto(msg.contents) &&
      (r.outcome.Delivered? || r.outcome.error.DecodeErr?)
  {
  }

  // ---------------------------------------------------------------------------
  // Properties of whole Watch calls
  // ---------------------------------------------------------------------------

  /** A pass that fetches content equal to b with a valid timestamp. */
  predicate FetchesBytes(p: Poll, b: Bytes) {
    p.Polled? && p.result.Fetched? && p.result.msg.updateTime.ValidStamp? &&
    BytesFromProto(p.result.msg.contents) == b
  }

  /** A pass whose fetch fails with NotFound. */
  predicate FetchesNotFound(p: Poll) {
    p.Polled? && p.result.RpcFailed? && IsNotFound(p.result.err)
  }

  /** Passes that loop again never touch the cache: a call that runs out of passes keeps it. */
  lemma {:induction false} SilentRunKeepsCache<V>(s: WatchState, decode: Decoder<V>, polls: seq<Poll>)
    requires Run(s, decode, polls).outcome.OutOfPolls?
    ensures var f := Run(s, decode, polls).state;
      f.bytes == s.bytes && f.isDeleted == s.isDeleted && f.updateTime == s.updateTime
    decreases |polls|
  {
    if polls != [] {
      var st := Step(s, decode, polls[0]);
      ContinueOnlyRecordsFetch(s, decode, polls[0]);
      SilentRunKeepsCache(st.state, decode, polls[1..]);
    }
  }

  /**
   * No spurious notification: while not deleted, fetches of the cached
   * content never make Watch return, whatever their timestamps.
   */
  lemma {:induction false} NoSpuriousNotification<V>(s: WatchState, decode: Decoder<V>, polls: seq<Poll>)
    requires !s.isDeleted
    requires forall i :: 0 <= i < |polls| ==> FetchesBytes(polls[i], s.bytes)
    ensures var r := Run(s, decode, polls);
      r.outcome.OutOfPolls? && r.state.bytes == s.bytes && !r.state.isDeleted && r.state.updateTime == s.updateTime
    decreases |polls|
  {
    if polls != [] {
      var st := Step(s, decode, polls[0]);
      assert st.Continue?;
      assert st.state == s.(lastRPCTime := polls[0].rpcTime);
      forall i | 0 <= i < |polls[1..]|
        ensures FetchesBytes(polls[1..][i], st.state.bytes)
      {
        assert polls[1..][i] == polls[i + 1];
      }
      NoSpuriousNotification(st.state, decode, polls[1..]);
    }
  }

  /** Once deleted, further NotFound results are absorbed: Watch keeps polling and reports nothing. */
  lemma {:induction false} RepeatedNotFoundAbsorbed<V>(s: WatchState, decode: Decoder<V>, polls: seq<Poll>)
    requires s.isDeleted
    requires forall i :: 0 <= i < |polls| ==> FetchesNotFound(polls[i])
    ensures var r := Run(s, decode, polls);
      r.outcome.OutOfPolls? && r.state.isDeleted && r.state.bytes == s.bytes && r.state.updateTime == s.updateTime
    decreases |polls|
  {
    if polls != [] {
      var st := Step(s, decode, polls[0]);
      assert st.Continue?;
      forall i | 0 <= i < |polls[1..]|
        ensures FetchesNotFound(polls[1..][i])
      {
        assert polls[1..][i] == polls[i + 1];
      }
      RepeatedNotFoundAbsorbed(st.state, decode, polls[1..]);
    }
  }

  /**
   * A deletion is reported exactly once: the first NotFound after content
   * returns the error, and a following Watch call over more NotFound results
   * returns nothing.
   */
  lemma DeletionReportedOnce<V>(s: WatchState, decode: Decoder<V>, polls: seq<Poll>)
    requires !s.isDeleted && |polls| >= 1
    requires forall i :: 0 <= i < |polls| ==> FetchesNotFound(polls[i])
    ensures var first := Run(s, decode, polls);
      FetchesNotFound(polls[0]) &&
      first.consumed == 1 && first.outcome == Errored(RpcErr(polls[0].result.err)) && first.state.isDeleted &&
      Run(first.state, decode, polls[1..]).outcome.OutOfPolls?
  {
    var first := Run(s, decode, polls);
    forall i | 0 <= i < |polls[1..]|
      ensures FetchesNotFound(polls[1..][i])
    {
      assert polls[1..][i] == polls[i + 1];
    }
    RepeatedNotFoundAbsorbed(first.state, decode, polls[1..]);
  }

  /**
   * Every return of Watch carries new information relative to the state it
   * started from: a value only after a deletion or for different bytes, a
   * NotFound only on the transition into the deleted state.
   */
  lemma {:induction false} WatchReportsOnlyNews<V>(s: WatchState, decode: Decoder<V>, polls: seq<Poll>)
    ensures var r := Run(s, decode, polls);
      (r.outcome.Delivered? ==> (s.isDeleted || r.state.bytes != s.bytes) && !r.state.isDeleted)
    ensures var r := Run(s, decode, polls);
      (r.outcome.Errored? && r.outcome.error.RpcErr? && IsNotFound(r.outcome.error.err) ==>
        !s.isDeleted && r.state.isDeleted && r.state.bytes == s.bytes)
    decreases |polls|
  {
    if polls != [] {
      var st := Step(s, decode, polls[0]);
      if st.Continue? {
        ContinueOnlyRecordsFetch(s, decode, polls[0]);
        WatchReportsOnlyNews(st.state, decode, polls[1..]);
      }
    }
  }

  /**
   * A pass that has nothing to report from state s: a valid fetch of the
   * cached bytes while not deleted, or a NotFound while deleted.
   */
  predicate Silent(s: WatchState, p: Poll) {
    (FetchesBytes(p, s.bytes) && !s.isDeleted) || (FetchesNotFound(p) && s.isDeleted)
  }

  /**
   * Watch blocks until there is something to report: a call runs out of
   * passes exactly when every pass is silent, and otherwise ends at the
   * first pass that is not.
   */
  lemma {:induction false} WatchEndsAtFirstReport<V>(s: WatchState, decode: Decoder<V>, polls: seq<Poll>)
    ensures Run(s, decode, polls).outcome.OutOfPolls? <==> forall i :: 0 <= i < |polls| ==> Silent(s, polls[i])
    ensures var k := Run(s, decode, polls).consumed;
      !Run(s, decode, polls).outcome.OutOfPolls? ==>
        !Silent(s, polls[k - 1]) && forall i :: 0 <= i < k - 1 ==> Silent(s, polls[i])
    decreases |polls|
  {
    if polls != [] {
      var st := Step(s, decode, polls[0]);
      StepReturnsIff(s, decode, polls[0]);
      if st.Continue? {
        ContinueOnlyRecordsFetch(s, decode, polls[0]);
        var s' := st.state;
        assert forall p :: Silent(s', p) == Silent(s, p);
        WatchEndsAtFirstReport(s', decode, polls[1..]);
        assert forall i :: 1 <= i < |polls| ==> polls[i] == polls[1..][i - 1];
      }
    }
  }

  /**
   * A variable whose content is empty when the watcher starts is not
   * reported by the first Watch: the empty fetch equals the empty initial
   * cache, so the loop keeps polling.
   */
  lemma FirstEmptyValueIsSilent<V>(waitTime: Duration, now: Time, decode: Decoder<V>, polls: seq<Poll>)
    requires forall i :: 0 <= i < |polls| ==> FetchesBytes(polls[i], [])
    ensures Run(InitialState(waitTime, now), decode, polls).outcome.OutOfPolls?
  {
    NoSpuriousNotification(InitialState(waitTime, now), decode, polls);
  }

  /** Moving a payload between the binary and the text field without changing its bytes is not a change. */
  lemma RepresentationSwitchIsSilent<V>(s: WatchState, decode: Decoder<V>, name: string, stamp: Time,
                                        rpcTime: Time, clock: Time)
    requires !s.isDeleted
    ensures Step(s, decode, Polled(Fetched(VariableMsg(name, TextContents(s.bytes), ValidStamp(stamp))), rpcTime, clock)).Continue?
    ensures Step(s, decode, Polled(Fetched(VariableMsg(name, ValueContents(s.bytes), ValidStamp(stamp))), rpcTime, clock)).Continue?
  {
  }

  /**
   * A decode error still commits the bytes: a following fetch of the same
   * bytes is not reported again.
   */
  lemma DecodeErrorCommitsBytes<V>(s: WatchState, decode: Decoder<V>, p: Poll, q: Poll)
    requires Step(s, decode, p).Return? && Step(s, decode, p).outcome.Errored?
    requires Step(s, decode, p).outcome.error.DecodeErr?
    requires FetchesBytes(q, BytesFromProto(p.result.msg.contents))
    ensures Step(Step(s, decode, p).state, decode, q).Continue?
  {
  }

  /**
   * An invalid timestamp does not disturb change detection: a later valid
   * fetch of bytes that differ from the cache is still reported.
   */
  lemma BadTimestampKeepsChangeDetectable<V>(s: WatchState, decode: Decoder<V>, p: Poll, q: Poll, b: Bytes)
    requires p.Polled? && p.result.Fetched? && p.result.msg.updateTime.InvalidStamp?
    requires b != s.bytes && FetchesBytes(q, b)
    ensures Step(s, decode, p).outcome == Errored(InvalidTimestamp(p.result.msg.name))
    ensures Step(Step(s, decode, p).state, decode, q).Return?
    ensures Step(Step(s, decode, p).state, decode, q).state.bytes == b
  {
  }

  /**
   * Content "v1" at t0 is reported; the same content at t1 is not; "v2" at
   * t2 is reported with t2, two passes into the second call.
   */
  lemma ScenarioUnchangedThenChanged<V>(decode: Decoder<V>, waitTime: Duration, now: Time,
                                        v1: Bytes, v2: Bytes, t0: Time, t1: Time, t2: Time)
    requires v1 != v2 && v1 != [] && decode(v1).Success? && decode(v2).Success?
    ensures var s0 := InitialState(waitTime, now);
      var p0 := Polled(Fetched(VariableMsg("x", ValueContents(v1), ValidStamp(t0))), t0, t0);
      var p1 := Polled(Fetched(VariableMsg("x", ValueContents(v1), ValidStamp(t1))), t1, t1);
      var p2 := Polled(Fetched(VariableMsg("x", ValueContents(v2), ValidStamp(t2))), t2, t2);
      var first := Run(s0, decode, [p0]);
      var second := Run(first.state, decode, [p1, p2]);
      first.outcome == Delivered(Variable(decode(v1).value, t0)) &&
      second.outcome == Delivered(Variable(decode(v2).value, t2)) && second.consumed == 2
  {
  }

  /**
   * NotFound at t0 is reported; NotFound again at t1 is not; "v1" at t2 is
   * reported with t2 even when it equals the content cached before.
   */
  lemma ScenarioDeletedThenRecreated<V>(decode: Decoder<V>, s0: WatchState, v1: Bytes,
                                        t0: Time, t1: Time, t2: Time)
    requires !s0.isDeleted && decode(v1).Success?
    ensures var nf := RpcFailed(StatusError(NotFoundCode, "not found"));
      var p0 := Polled(nf, t0, t0);
      var p1 := Polled(nf, t1, t1);
      var p2 := Polled(Fetched(VariableMsg("x", TextContents(v1), ValidStamp(t2))), t2, t2);
      var first := Run(s0, decode, [p0]);
      var second := Run(first.state, decode, [p1, p2]);
      first.outcome == Errored(RpcErr(StatusError(NotFoundCode, "not found"))) &&
      second.outcome == Delivered(Variable(decode(v1).value, t2)) && second.consumed == 2
  {
  }
}
