/**
 * The session object: connection parameters fixed at construction, a lazily
 * established and cached connection, and the operations that use it. Exec, Ls,
 * Mkdir, Tunnel, Download and Upload first call Connect and return false at
 * once when it fails, without calling their own primitive.
 *
 * Calls into the extension are visible as `t.log`. Exec, Ls, Mkdir, Tunnel,
 * Download and Upload return, as ghost values, the calls their connection step
 * made (`calls`) and the calls they made afterwards (`sent`); Connect returns
 * its `calls`; Disconnect and Teardown return the ssh2_exec call of `exit` they
 * made, if any (`exit`), and Reconnect returns both; Invoke, Run and RunEach
 * return the calls they appended to the log, exec by exec (`steps`). Each
 * contract can so say which calls happen in which state.
 */
module Session {
  import opened Transport
  import opened Output
  import opened Paths
  import opened Dispatch

  /** The default permission mode of upload and mkdir, octal 0777. */
  const DefaultMode: int := 0x1FF

  /** What exec returns for a logged ssh2_exec call: false without a channel, else what its read loop gathers. */
  function Answer(c: Call): Option<string>
    requires c.ExecCall?
  {
    if c.chunks.None? then None else Some(Collect(c.chunks.value))
  }

  /**
   * One exec: the ssh2_exec call it made (None when connecting failed and no
   * call was made), the command it was asked to run, and what it returned.
   */
  ghost predicate Records(e: Option<Call>, c: string, o: Option<string>)
  {
    if e.None? then o.None? else e.value.ExecCall? && e.value.command == c && o == Answer(e.value)
  }

  /** Each exec so far: its command, its answer and the ssh2_exec call behind them. */
  ghost predicate ExecsRecorded(ran: seq<string>, outputs: seq<Option<string>>, execs: seq<Option<Call>>)
  {
    |ran| == |outputs| == |execs| &&
    forall j :: 0 <= j < |execs| ==> Records(execs[j], ran[j], outputs[j])
  }

  /** The ssh2_exec calls in `log`, in order. */
  function ExecCalls(log: seq<Call>): seq<Call>
  {
    if log == [] then []
    else ExecCalls(log[..|log| - 1]) + (if log[|log| - 1].ExecCall? then [log[|log| - 1]] else [])
  }

  lemma {:induction false} ExecCallsAppend(a: seq<Call>, b: seq<Call>)
    ensures ExecCalls(a + b) == ExecCalls(a) + ExecCalls(b)
    decreases |b|
  {
    if b == [] {
      assert a + b == a;
    } else {
      var b' := b[..|b| - 1];
      assert (a + b)[..|a + b| - 1] == a + b';
      assert (a + b)[|a + b| - 1] == b[|b| - 1];
      ExecCallsAppend(a, b');
    }
  }

  /** No call in `log` is anything but a dial, an authentication or an ssh2_exec call. */
  ghost predicate OnlyDialAuthExec(log: seq<Call>)
  {
    log == [] ||
    (OnlyDialAuthExec(log[..|log| - 1]) &&
     (log[|log| - 1].Dial? || log[|log| - 1].Auth? || log[|log| - 1].ExecCall?))
  }

  lemma {:induction false} OnlyDialAuthExecAppend(a: seq<Call>, b: seq<Call>)
    requires OnlyDialAuthExec(a) && OnlyDialAuthExec(b)
    ensures OnlyDialAuthExec(a + b)
    decreases |b|
  {
    if b == [] {
      assert a + b == a;
    } else {
      var b' := b[..|b| - 1];
      assert (a + b)[..|a + b| - 1] == a + b';
      assert (a + b)[|a + b| - 1] == b[|b| - 1];
      OnlyDialAuthExecAppend(a, b');
    }
  }

  /** The ssh2_exec calls behind a run of execs, in order, leaving out the execs that made none. */
  function Reached(made: seq<Option<Call>>): seq<Call>
  {
    if made == [] then []
    else Reached(made[..|made| - 1]) + (if made[|made| - 1].Some? then [made[|made| - 1].value] else [])
  }

  lemma {:induction false} ReachedAppend(a: seq<Option<Call>>, b: seq<Option<Call>>)
    ensures Reached(a + b) == Reached(a) + Reached(b)
    decreases |b|
  {
    if b == [] {
      assert a + b == a;
    } else {
      var b' := b[..|b| - 1];
      assert (a + b)[..|a + b| - 1] == a + b';
      assert (a + b)[|a + b| - 1] == b[|b| - 1];
      ReachedAppend(a, b');
    }
  }

  /** Every exec of `made` reached ssh2_exec on connection h. */
  ghost predicate AllOn(made: seq<Option<Call>>, h: Option<Handle>)
  {
    made == [] ||
    (AllOn(made[..|made| - 1], h) &&
     var e := made[|made| - 1]; e.Some? && e.value.ExecCall? && Some(e.value.conn) == h)
  }

  lemma {:induction false} AllOnAppend(a: seq<Option<Call>>, b: seq<Option<Call>>, h: Option<Handle>)
    requires AllOn(a, h) && AllOn(b, h)
    ensures AllOn(a + b, h)
    decreases |b|
  {
    if b == [] {
      assert a + b == a;
    } else {
      var b' := b[..|b| - 1];
      assert (a + b)[..|a + b| - 1] == a + b';
      assert (a + b)[|a + b| - 1] == b[|b| - 1];
      AllOnAppend(a, b', h);
    }
  }

  /**
   * The calls a run of execs `made` makes, starting connected (`was`) on handle
   * `h` or not:
   *  - only dials, authentications and ssh2_exec calls;
   *  - the ssh2_exec calls are exactly those behind the execs, in the order the
   *    execs ran;
   *  - starting connected: nothing but those ssh2_exec calls, one per exec,
   *    each on `h`.
   */
  ghost predicate ExecsVia(calls: seq<Call>, made: seq<Option<Call>>, was: bool, h: Option<Handle>)
  {
    OnlyDialAuthExec(calls) &&
    ExecCalls(calls) == Reached(made) &&
    (was ==> calls == Reached(made)) &&
    (was ==> AllOn(made, h))
  }

  /**
   * One exec: its connection step made no call (already connected) or a dial and
   * possibly an authentication; then at most the one ssh2_exec call it records.
   */
  lemma OneExecVia(connecting: seq<Call>, sent: seq<Call>, e: Option<Call>, was: bool, h: Option<Handle>)
    requires was ==> connecting == [] && e.Some? && e.value.ExecCall? && Some(e.value.conn) == h
    requires !was ==> 1 <= |connecting| <= 2 && connecting[0].Dial? && (|connecting| == 2 ==> connecting[1].Auth?)
    requires e.None? ==> sent == []
    requires e.Some? ==> sent == [e.value] && e.value.ExecCall?
    ensures ExecsVia(connecting + sent, [e], was, h)
  {
    if !was {
      assert connecting[..1] == [connecting[0]] && connecting[..1][..0] == [];
      if |connecting| == 2 {
        assert connecting[..|connecting| - 1] == connecting[..1];
      }
    }
    ExecCallsAppend(connecting, sent);
    OnlyDialAuthExecAppend(connecting, sent);
    assert [e][..0] == [];
  }

  /**
   * Starting connected, the calls are exactly one ssh2_exec call per exec, on
   * the live handle, in the order the execs ran.
   */
  lemma {:induction false} ConnectedCallsInOrder(calls: seq<Call>, made: seq<Option<Call>>, h: Option<Handle>)
    requires ExecsVia(calls, made, true, h)
    ensures |calls| == |made|
    ensures forall j :: 0 <= j < |made| ==>
      made[j] == Some(calls[j]) && calls[j].ExecCall? && Some(calls[j].conn) == h
    decreases |made|
  {
    if made != [] {
      var n := |made| - 1;
      var init := made[..n];
      assert AllOn(init, h);
      ConnectedCallsInOrder(Reached(init), init, h);
      assert made == init + [made[n]];
    }
  }

  /** Two runs of execs one after the other make the calls of both, in that order. */
  lemma ExecsViaAppend(c1: seq<Call>, m1: seq<Option<Call>>, was: bool, h: Option<Handle>,
                       c2: seq<Call>, m2: seq<Option<Call>>, was2: bool, h2: Option<Handle>)
    requires ExecsVia(c1, m1, was, h) && ExecsVia(c2, m2, was2, h2) && (was ==> was2 && h2 == h)
    ensures ExecsVia(c1 + c2, m1 + m2, was, h)
  {
    ExecCallsAppend(c1, c2);
    ReachedAppend(m1, m2);
    OnlyDialAuthExecAppend(c1, c2);
    if was {
      AllOnAppend(m1, m2, h);
    }
  }

  lemma Assoc<T>(a: seq<T>, b: seq<T>, c: seq<T>)
    ensures a + b + c == a + (b + c)
  {
  }

  /** A sequence a + m that has grown to `now` is a + (m + what it grew by). */
  lemma Extended<T>(a: seq<T>, m: seq<T>, before: seq<T>, now: seq<T>)
    requires before == a + m && before <= now
    ensures now == a + (m + now[|before|..])
  {
    assert now == before + now[|before|..];
  }

  /** Where the session connects, and the credentials it authenticates with. */
  datatype Peer = Peer(host: string, port: int, login: string, password: string)

  /** The connection state: authenticated or not, and the handle of the last dial. */
  datatype Link = Link(up: bool, conn: Option<Handle>)

  /** The calls of one connection attempt: a dial, then an authentication if the dial succeeded. */
  ghost predicate Attempt(p: Peer, calls: seq<Call>, ok: bool)
  {
    |calls| >= 1 && calls[0].Dial? && calls[0].host == p.host && calls[0].port == p.port &&
    if calls[0].dialed.None? then |calls| == 1 && !ok
    else |calls| == 2 && calls[1] == Auth(calls[0].dialed.value, p.login, p.password, ok)
  }

  /**
   * The calls `step` of one exec from connection state `from`, and its record `e`.
   * Connected: just its ssh2_exec call, on the live handle. Otherwise a dial, an
   * authentication if the dial gave a handle, and then the ssh2_exec call on that
   * handle exactly when the authentication succeeded.
   */
  ghost predicate ExecStep(p: Peer, from: Link, step: seq<Call>, e: Option<Call>)
  {
    if from.up then
      e.Some? && step == [e.value] && e.value.ExecCall? && Some(e.value.conn) == from.conn
    else
      |step| >= 1 && step[0].Dial? && step[0].host == p.host && step[0].port == p.port &&
      if step[0].dialed.None? then |step| == 1 && e.None?
      else
        |step| >= 2 && step[1].Auth? &&
        step[1] == Auth(step[0].dialed.value, p.login, p.password, step[1].ok) &&
        if !step[1].ok then |step| == 2 && e.None?
        else |step| == 3 && e == Some(step[2]) && step[2].ExecCall? && step[2].conn == step[0].dialed.value
  }

  /** The connection state after one exec's calls `step`, starting from `from`. */
  function After(from: Link, step: seq<Call>): Link
  {
    if from.up || step == [] || !step[0].Dial? then from
    else if |step| >= 2 && step[1].Auth? then Link(step[1].ok, step[0].dialed)
    else Link(false, step[0].dialed)
  }

  /** A run of execs from state `from`: exec j made the calls steps[j] and has the record made[j]. */
  ghost predicate Trace(p: Peer, from: Link, steps: seq<seq<Call>>, made: seq<Option<Call>>)
    decreases |steps|
  {
    |steps| == |made| &&
    (steps != [] ==> ExecStep(p, from, steps[0], made[0]) && Trace(p, After(from, steps[0]), steps[1..], made[1..]))
  }

  /** The connection state after a run of execs. */
  function Final(from: Link, steps: seq<seq<Call>>): Link
    decreases |steps|
  {
    if steps == [] then from else Final(After(from, steps[0]), steps[1..])
  }

  /** All the calls of a run of execs, in order. */
  function Flatten(steps: seq<seq<Call>>): seq<Call>
    decreases |steps|
  {
    if steps == [] then [] else steps[0] + Flatten(steps[1..])
  }

  lemma {:induction false} FlattenAppend(a: seq<seq<Call>>, b: seq<seq<Call>>)
    ensures Flatten(a + b) == Flatten(a) + Flatten(b)
    decreases |a|
  {
    if a == [] {
      assert a + b == b;
    } else {
      assert (a + b)[0] == a[0] && (a + b)[1..] == a[1..] + b;
      FlattenAppend(a[1..], b);
    }
  }

  /** Two runs of execs one after the other: the second starts in the state the first ends in. */
  lemma {:induction false} TraceAppend(p: Peer, from: Link, s1: seq<seq<Call>>, m1: seq<Option<Call>>,
                                       s2: seq<seq<Call>>, m2: seq<Option<Call>>)
    requires Trace(p, from, s1, m1) && Trace(p, Final(from, s1), s2, m2)
    ensures Trace(p, from, s1 + s2, m1 + m2)
    ensures Final(from, s1 + s2) == Final(Final(from, s1), s2)
    decreases |s1|
  {
    if s1 == [] {
      assert s1 + s2 == s2 && m1 + m2 == m2;
    } else {
      TraceAppend(p, After(from, s1[0]), s1[1..], m1[1..], s2, m2);
      assert (s1 + s2)[0] == s1[0] && (s1 + s2)[1..] == s1[1..] + s2;
      assert (m1 + m2)[0] == m1[0] && (m1 + m2)[1..] == m1[1..] + m2;
    }
  }

  /** A single exec is a run of one step. */
  lemma SingleTrace(p: Peer, from: Link, step: seq<Call>, e: Option<Call>)
    requires ExecStep(p, from, step, e)
    ensures Trace(p, from, [step], [e]) && Final(from, [step]) == After(from, step)
    ensures Flatten([step]) == step
  {
    assert [step][1..] == [] && [e][1..] == [];
    assert step + [] == step;
  }

  /** An exec reaches ssh2_exec exactly when it leaves the session connected, and then on the live handle. */
  lemma StepReachesExactlyWhenUp(p: Peer, from: Link, step: seq<Call>, e: Option<Call>)
    requires ExecStep(p, from, step, e)
    ensures e.Some? <==> After(from, step).up
    ensures e.Some? ==> Some(e.value.conn) == After(from, step).conn && step[|step| - 1] == e.value
    ensures from.up ==> After(from, step) == from
  {
  }

  /** A connected session stays connected, on the same handle. */
  lemma {:induction false} UpStaysUp(from: Link, steps: seq<seq<Call>>)
    requires from.up
    ensures Final(from, steps) == from
    decreases |steps|
  {
    if steps != [] {
      UpStaysUp(After(from, steps[0]), steps[1..]);
    }
  }

  /**
   * What one exec's contract gives, as an ExecStep: the connection step made
   * `connecting` and left state `to`, then the exec made the calls `sent`.
   */
  lemma ExecStepOf(p: Peer, from: Link, connecting: seq<Call>, sent: seq<Call>, e: Option<Call>, to: Link)
    requires from.up ==> connecting == [] && to == from
    requires !from.up ==> Attempt(p, connecting, to.up) && to.conn == connecting[0].dialed
    requires !to.up ==> sent == [] && e.None?
    requires to.up ==> e.Some? && sent == [e.value] && e.value.ExecCall? && Some(e.value.conn) == to.conn
    ensures ExecStep(p, from, connecting + sent, e) && After(from, connecting + sent) == to
  {
    var step := connecting + sent;
    if !from.up {
      assert step[0] == connecting[0];
      if |connecting| == 2 {
        assert step[1] == connecting[1];
      }
    }
  }

  /** The calls of one exec, split into its connection step and its ssh2_exec call. */
  lemma StepExecsVia(p: Peer, from: Link, step: seq<Call>, e: Option<Call>)
    requires ExecStep(p, from, step, e)
    ensures ExecsVia(step, [e], from.up, from.conn)
  {
    if from.up {
      OneExecVia([], step, e, true, from.conn);
      assert [] + step == step;
    } else if e.None? {
      OneExecVia(step, [], e, false, from.conn);
      assert step + [] == step;
    } else {
      OneExecVia(step[..2], [step[2]], e, false, from.conn);
      assert step[..2] + [step[2]] == step;
    }
  }

  /**
   * A run of execs makes only dials, authentications and ssh2_exec calls; its
   * ssh2_exec calls are those behind its records, in order; and starting
   * connected, those calls are all it makes.
   */
  lemma {:induction false} TraceGivesExecsVia(p: Peer, from: Link, steps: seq<seq<Call>>, made: seq<Option<Call>>)
    requires Trace(p, from, steps, made)
    ensures ExecsVia(Flatten(steps), made, from.up, from.conn)
    decreases |steps|
  {
    if steps == [] {
      assert made == [];
    } else {
      StepExecsVia(p, from, steps[0], made[0]);
      TraceGivesExecsVia(p, After(from, steps[0]), steps[1..], made[1..]);
      ExecsViaAppend(steps[0], [made[0]], from.up, from.conn,
                     Flatten(steps[1..]), made[1..], After(from, steps[0]).up, After(from, steps[0]).conn);
      assert made == [made[0]] + made[1..];
    }
  }

  /**
   * A fresh session running two commands: if the first reached ssh2_exec, the
   * calls were one dial, a successful authentication on its handle, and the two
   * ssh2_exec calls on that handle, the second without a new dial.
   */
  lemma FreshPairScenario(p: Peer, h: Option<Handle>, steps: seq<seq<Call>>, made: seq<Option<Call>>)
    requires Trace(p, Link(false, h), steps, made) && |made| == 2 && made[0].Some?
    ensures steps[0][0].Dial? && steps[0][0].dialed.Some?
    ensures made[1].Some? && made[0].value.ExecCall? && made[1].value.ExecCall?
    ensures made[1].value.conn == made[0].value.conn == steps[0][0].dialed.value
    ensures Flatten(steps) ==
      [Dial(p.host, p.port, steps[0][0].dialed), Auth(steps[0][0].dialed.value, p.login, p.password, true),
       made[0].value, made[1].value]
  {
    var rest := steps[1..];
    assert rest[1..] == [];
    assert Flatten(rest) == rest[0] + [];
  }

  /** One turn of the foreach in RunEach: the commands, answers and results so far grow by those of argument k. */
  lemma LoopStepResults(args: seq<Cmd>, k: nat, ran0: seq<string>, ran: seq<string>,
                        outputs0: seq<Option<string>>, answers: seq<Option<string>>,
                        before: seq<Option<string>>, outputs: seq<Option<string>>, out: seq<Res>, x: Res)
    requires k < |args|
    requires before == outputs0 + answers && before <= outputs
    requires ran == ran0 + LeavesAll(args[..k]) + Leaves(args[k])
    requires |answers| == |LeavesAll(args[..k])| && |outputs| - |before| == |Leaves(args[k])|
    requires out == EvalEach(args[..k], answers) && x == Eval(args[k], outputs[|before|..])
    ensures outputs == outputs0 + (answers + outputs[|before|..])
    ensures ran == ran0 + LeavesAll(args[..k + 1])
    ensures |answers + outputs[|before|..]| == |LeavesAll(args[..k + 1])|
    ensures out + [x] == EvalEach(args[..k + 1], answers + outputs[|before|..])
  {
    Extended(outputs0, answers, before, outputs);
    LeavesPrefix(args, k);
    Assoc(ran0, LeavesAll(args[..k]), Leaves(args[k]));
    EvalEachSnoc(args, k, answers, outputs[|before|..]);
  }

  /** One turn of the foreach in RunEach: the exec records and calls so far grow by those of argument k. */
  lemma LoopStepCalls(execs0: seq<Option<Call>>, made: seq<Option<Call>>, beforeExecs: seq<Option<Call>>, execs: seq<Option<Call>>,
                      log0: seq<Call>, steps: seq<seq<Call>>, more: seq<seq<Call>>, log: seq<Call>,
                      p: Peer, from0: Link, now: Link)
    requires beforeExecs == execs0 + made && beforeExecs <= execs
    requires log == log0 + Flatten(steps) + Flatten(more)
    requires Trace(p, from0, steps, made) && Trace(p, Final(from0, steps), more, execs[|beforeExecs|..])
    requires now == Final(Final(from0, steps), more)
    ensures execs == execs0 + (made + execs[|beforeExecs|..])
    ensures log == log0 + Flatten(steps + more)
    ensures Trace(p, from0, steps + more, made + execs[|beforeExecs|..]) && now == Final(from0, steps + more)
  {
    Extended(execs0, made, beforeExecs, execs);
    FlattenAppend(steps, more);
    Assoc(log0, Flatten(steps), Flatten(more));
    TraceAppend(p, from0, steps, made, more, execs[|beforeExecs|..]);
  }

  /** The session-termination instruction that disconnect sends on connection h. */
  ghost predicate ExitCall(c: Call, h: Handle)
  {
    c.ExecCall? && c.conn == h && c.command == "exit"
  }

  class Session {
    const host: string
    const login: string
    const password: string
    const port: int
    const t: Transport

    /** The connection resource of the last dial, None once a dial has failed. */
    var handle: Option<Handle>
    /** True only after a successful authentication, until the next disconnect. */
    var connected: bool

    /** Where in the log the authentication of the live connection is. */
    ghost var authAt: nat
    /**
     * The commands exec has been asked to run, what it returned for each, and the
     * ssh2_exec call that produced that answer.
     */
    ghost var ran: seq<string>
    ghost var outputs: seq<Option<string>>
    ghost var execs: seq<Option<Call>>

    ghost predicate Valid()
      reads this, t
    {
      ExecsRecorded(ran, outputs, execs) &&
      (connected ==>
        handle.Some? && 1 <= authAt < |t.log| && t.log[authAt - 1] == Dial(host, port, handle) &&
        t.log[authAt] == Auth(handle.value, login, password, true))
    }

    constructor (t: Transport, host: string := "localhost", login: string := "root",
                 password: string := "", port: int := 22)
      ensures Valid()
      ensures this.t == t && this.host == host && this.login == login
      ensures this.password == password && this.port == port
      ensures !connected && handle.None? && ran == [] && outputs == [] && execs == []
    {
      this.t := t;
      this.host := host;
      this.login := login;
      this.password := password;
      this.port := port;
      handle := None;
      connected := false;
      authAt := 0;
      ran := [];
      outputs := [];
      execs := [];
    }

    /** The peer and credentials fixed at construction. */
    ghost function Target(): Peer
    {
      Peer(host, port, login, password)
    }

    /** The current connection state. */
    ghost function State(): Link
      reads this
    {
      Link(connected, handle)
    }

    /**
     * What Connect did, starting from connection state `was` with handle `wasHandle`:
     * nothing at all when connected, otherwise one attempt whose dial result is now
     * the handle; `connected` is the outcome.
     */
    ghost predicate ConnectedVia(calls: seq<Call>, was: bool, wasHandle: Option<Handle>)
      reads this
    {
      (if was then calls == [] && connected else Attempt(Target(), calls, connected)) &&
      (was ==> handle == wasHandle) &&
      (!was ==> handle == calls[0].dialed)
    }

    method Connect() returns (ok: bool, ghost calls: seq<Call>)
      requires Valid()
      modifies this`handle, this`connected, this`authAt, t
      ensures Valid()
      ensures ok == connected
      ensures t.log == old(t.log) + calls
      ensures ConnectedVia(calls, old(connected), old(handle))
    {
      if !connected {
        var conn := t.Connect(host, port);
        handle := conn;
        if conn.None? {
          calls := [Dial(host, port, conn)];
          return false, calls;
        }
        var authed := t.AuthPassword(conn.value, login, password);
        connected := authed;
        calls := [Dial(host, port, conn), Auth(conn.value, login, password, authed)];
        if !connected {
          return false, calls;
        }
        authAt := |t.log| - 1;
      } else {
        calls := [];
      }
      ok := connected;
    }

    /** If connected, sends "exit" on the connection (ignoring the answer) and drops the state. */
    method Disconnect() returns (ghost exit: seq<Call>)
      requires Valid()
      modifies this`connected, t
      ensures Valid() && !connected
      ensures t.log == old(t.log) + exit
      ensures old(connected) ==> |exit| == 1 && ExitCall(exit[0], old(handle).value)
      ensures !old(connected) ==> exit == []
    {
      exit := [];
      if connected {
        var _ := t.Exec(handle.value, "exit");
        exit := [t.log[|t.log| - 1]];
        connected := false;
      }
    }

    /** The end of the session's lifetime: disconnects. */
    method Teardown() returns (ghost exit: seq<Call>)
      requires Valid()
      modifies this`connected, t
      ensures Valid() && !connected
      ensures t.log == old(t.log) + exit
      ensures old(connected) ==> |exit| == 1 && ExitCall(exit[0], old(handle).value)
      ensures !old(connected) ==> exit == []
    {
      exit := Disconnect();
    }

    /** Disconnect, then connect: always dials again, and returns that attempt's outcome. */
    method Reconnect() returns (ok: bool, ghost exit: seq<Call>, ghost calls: seq<Call>)
      requires Valid()
      modifies this`handle, this`connected, this`authAt, t
      ensures Valid()
      ensures ok == connected
      ensures t.log == old(t.log) + exit + calls
      ensures old(connected) ==> |exit| == 1 && ExitCall(exit[0], old(handle).value)
      ensures !old(connected) ==> exit == []
      ensures Attempt(Target(), calls, ok) && handle == calls[0].dialed
    {
      exit := Disconnect();
      ok, calls := Connect();
    }

    /** Runs command c: its output up to the first falsy chunk, or None (false). */
    method Exec(c: string) returns (r: Option<string>, ghost calls: seq<Call>, ghost sent: seq<Call>)
      requires Valid()
      modifies this`handle, this`connected, this`authAt, this`ran, this`outputs, this`execs, t
      ensures Valid()
      ensures ran == old(ran) + [c] && outputs == old(outputs) + [r]
      ensures ConnectedVia(calls, old(connected), old(handle))
      ensures t.log == old(t.log) + calls + sent
      ensures !connected ==> r.None? && sent == [] && execs == old(execs) + [None]
      ensures connected ==>
        |sent| == 1 && sent[0].ExecCall? && sent[0].conn == handle.value && sent[0].command == c &&
        r == Answer(sent[0]) && execs == old(execs) + [Some(sent[0])]
    {
      var ok;
      ok, calls := Connect();
      if !ok {
        r, sent := None, [];
      } else {
        var ch := t.Exec(handle.value, c);
        sent := [t.log[|t.log| - 1]];
        if ch == null {
          r := None;
        } else {
          var d := ReadOutput(ch);
          r := Some(d);
        }
      }
      ran := ran + [c];
      outputs := outputs + [r];
      execs := execs + [if ok then Some(sent[0]) else None];
    }

    /**
     * `__invoke` with the argument list `args`: runs the commands of LeavesAll(args)
     * in order, one exec each, and shapes their answers as EvalArgs does. The log
     * grows by the calls of those execs, exec by exec (`steps`), each made from the
     * connection state the previous one left.
     */
    method Invoke(args: seq<Cmd>) returns (r: Res, ghost steps: seq<seq<Call>>)
      requires Valid()
      modifies this`handle, this`connected, this`authAt, this`ran, this`outputs, this`execs, t
      ensures Valid()
      ensures ran == old(ran) + LeavesAll(args)
      ensures old(outputs) <= outputs && old(execs) <= execs
      ensures r == EvalArgs(args, outputs[|old(outputs)|..])
      ensures t.log == old(t.log) + Flatten(steps)
      ensures Trace(Target(), old(State()), steps, execs[|old(execs)|..])
      ensures State() == Final(old(State()), steps)
      ensures old(connected) ==> connected && handle == old(handle)
      decreases args, 1
    {
      if |args| == 1 {
        assert args[..0] == [];
        r, steps := Run(args[0]);
      } else {
        var out;
        out, steps := RunEach(args);
        r := List(out);
      }
    }

    /** The foreach of `__invoke`: runs the arguments in turn and collects their results in order. */
    method RunEach(args: seq<Cmd>) returns (out: seq<Res>, ghost steps: seq<seq<Call>>)
      requires Valid()
      modifies this`handle, this`connected, this`authAt, this`ran, this`outputs, this`execs, t
      ensures Valid()
      ensures ran == old(ran) + LeavesAll(args)
      ensures old(outputs) <= outputs && old(execs) <= execs
      ensures out == EvalEach(args, outputs[|old(outputs)|..])
      ensures t.log == old(t.log) + Flatten(steps)
      ensures Trace(Target(), old(State()), steps, execs[|old(execs)|..])
      ensures State() == Final(old(State()), steps)
      ensures old(connected) ==> connected && handle == old(handle)
      decreases args, 0
    {
      ghost var ran0, outputs0, execs0, log0, from0, p := ran, outputs, execs, t.log, Link(connected, handle), Target();
      out, steps := [], [];
      ghost var answers: seq<Option<string>>, made: seq<Option<Call>> := [], [];
      var k := 0;
      while k < |args|
        invariant 0 <= k <= |args|
        invariant Valid()
        invariant ran == ran0 + LeavesAll(args[..k])
        invariant outputs == outputs0 + answers && execs == execs0 + made
        invariant out == EvalEach(args[..k], answers)
        invariant t.log == log0 + Flatten(steps)
        invariant Trace(p, from0, steps, made) && Link(connected, handle) == Final(from0, steps)
        decreases |args| - k
      {
        ghost var before, beforeExecs, beforeLog := outputs, execs, t.log;
        var x, more := Run(args[k]);
        ghost var newAnswers, newMade := outputs[|before|..], execs[|beforeExecs|..];
        LoopStepResults(args, k, ran0, ran, outputs0, answers, before, outputs, out, x);
        LoopStepCalls(execs0, made, beforeExecs, execs, log0, steps, more, t.log, p, from0, Link(connected, handle));
        steps, answers, made := steps + more, answers + newAnswers, made + newMade;
        out := out + [x];
        k := k + 1;
      }
      assert args[..k] == args;
      assert outputs[|outputs0|..] == answers && execs[|execs0|..] == made;
      if from0.up {
        UpStaysUp(from0, steps);
      }
    }

    /** One argument of `__invoke`: an array is spread into a new call, a string is executed. */
    method Run(c: Cmd) returns (x: Res, ghost steps: seq<seq<Call>>)
      requires Valid()
      modifies this`handle, this`connected, this`authAt, this`ran, this`outputs, this`execs, t
      ensures Valid()
      ensures ran == old(ran) + Leaves(c)
      ensures old(outputs) <= outputs && old(execs) <= execs
      ensures x == Eval(c, outputs[|old(outputs)|..])
      ensures t.log == old(t.log) + Flatten(steps)
      ensures Trace(Target(), old(State()), steps, execs[|old(execs)|..])
      ensures State() == Final(old(State()), steps)
      ensures old(connected) ==> connected && handle == old(handle)
      decreases c, 0
    {
      match c
      case Batch(xs) =>
        x, steps := Invoke(xs);
      case Leaf(s) =>
        ghost var from := State();
        var o, connecting, sent := Exec(s);
        x := FromExec(o);
        ghost var e := execs[|execs| - 1];
        assert execs[|old(execs)|..] == [e];
        ExecStepOf(Target(), from, connecting, sent, e, State());
        SingleTrace(Target(), from, connecting + sent, e);
        steps := [connecting + sent];
    }

    /** The listing of `path` (None is false: the connection failed). */
    method Ls(path: string) returns (r: Option<seq<FileInfo>>, ghost calls: seq<Call>, ghost sent: seq<Call>)
      requires Valid()
      modifies this`handle, this`connected, this`authAt, t
      ensures Valid()
      ensures ConnectedVia(calls, old(connected), old(handle))
      ensures t.log == old(t.log) + calls + sent
      ensures !connected ==> r.None? && sent == []
      ensures connected ==>
        1 <= |sent| <= 2 && sent[0].SftpCall? && sent[0].conn == handle.value &&
        (sent[0].subsystem.None? ==> |sent| == 1 && r == Some([])) &&
        (sent[0].subsystem.Some? ==>
          |sent| == 2 && sent[1].OpenDirCall? &&
          sent[1].sftp == sent[0].subsystem.value && sent[1].path == NormalizePath(path) &&
          r == Some(if sent[1].entries.None? then [] else Listing(sent[1].entries.value)))
    {
      var ok;
      ok, calls := Connect();
      if !ok {
        return None, calls, [];
      }
      var sftp := t.Sftp(handle.value);
      sent := [SftpCall(handle.value, sftp)];
      if sftp.None? {
        return Some([]), calls, sent;
      }
      var dir := NormalizePath(path);
      var d := t.OpenDir(sftp.value, dir);
      sent := sent + [t.log[|t.log| - 1]];
      if d == null {
        return Some([]), calls, sent;
      }
      var files := ReadListing(d);
      r := Some(files);
    }

    /** Creates directory `path` with `mode` over SFTP; false if not connected or no SFTP handle. */
    method Mkdir(path: string, mode: int := DefaultMode) returns (ok: bool, ghost calls: seq<Call>, ghost sent: seq<Call>)
      requires Valid()
      modifies this`handle, this`connected, this`authAt, t
      ensures Valid()
      ensures ConnectedVia(calls, old(connected), old(handle))
      ensures t.log == old(t.log) + calls + sent
      ensures !connected ==> !ok && sent == []
      ensures connected ==>
        1 <= |sent| <= 2 && sent[0].SftpCall? && sent[0].conn == handle.value &&
        (sent[0].subsystem.None? ==> |sent| == 1 && !ok) &&
        (sent[0].subsystem.Some? ==> sent == [sent[0], MkdirCall(sent[0].subsystem.value, path, mode, ok)])
    {
      var up;
      up, calls := Connect();
      if !up {
        return false, calls, [];
      }
      var sftp := t.Sftp(handle.value);
      sent := [SftpCall(handle.value, sftp)];
      if sftp.None? {
        return false, calls, sent;
      }
      ok := t.SftpMkdir(sftp.value, path, mode);
      sent := sent + [MkdirCall(sftp.value, path, mode, ok)];
    }

    /** Opens a forwarding channel to targetHost:targetPort from the remote end. */
    method Tunnel(targetHost: string := "localhost", targetPort: int := 22)
      returns (r: Option<Stream>, ghost calls: seq<Call>, ghost sent: seq<Call>)
      requires Valid()
      modifies this`handle, this`connected, this`authAt, t
      ensures Valid()
      ensures ConnectedVia(calls, old(connected), old(handle))
      ensures t.log == old(t.log) + calls + sent
      ensures !connected ==> r.None? && sent == []
      ensures connected ==> sent == [TunnelCall(handle.value, targetHost, targetPort, r)]
    {
      var up;
      up, calls := Connect();
      if !up {
        return None, calls, [];
      }
      r := t.Tunnel(handle.value, targetHost, targetPort);
      sent := [TunnelCall(handle.value, targetHost, targetPort, r)];
    }

    /** Copies remote file `remote` to local file `local` over SCP. */
    method Download(remote: string := "/", local: string := "/")
      returns (ok: bool, ghost calls: seq<Call>, ghost sent: seq<Call>)
      requires Valid()
      modifies this`handle, this`connected, this`authAt, t
      ensures Valid()
      ensures ConnectedVia(calls, old(connected), old(handle))
      ensures t.log == old(t.log) + calls + sent
      ensures !connected ==> !ok && sent == []
      ensures connected ==> sent == [RecvCall(handle.value, remote, local, ok)]
    {
      var up;
      up, calls := Connect();
      if !up {
        return false, calls, [];
      }
      ok := t.ScpRecv(handle.value, remote, local);
      sent := [RecvCall(handle.value, remote, local, ok)];
    }

    /** Copies local file `local` to remote file `remote` with `mode` over SCP. */
    method Upload(local: string := "/", remote: string := "/", mode: int := DefaultMode)
      returns (ok: bool, ghost calls: seq<Call>, ghost sent: seq<Call>)
      requires Valid()
      modifies this`handle, this`connected, this`authAt, t
      ensures Valid()
      ensures ConnectedVia(calls, old(connected), old(handle))
      ensures t.log == old(t.log) + calls + sent
      ensures !connected ==> !ok && sent == []
      ensures connected ==> sent == [SendCall(handle.value, local, remote, mode, ok)]
    {
      var up;
      up, calls := Connect();
      if !up {
        return false, calls, [];
      }
      ok := t.ScpSend(handle.value, local, remote, mode);
      sent := [SendCall(handle.value, local, remote, mode, ok)];
    }
  }
}
