/** `Monitor` of helpers/shutdown/shutdown.go, the signal counter that turns
    the first SIGINT/SIGTERM into a cancellation, warns on the second and
    forces the process down on the third, and returns once its context is
    done.

    Time is a sequence of inputs. A signal is delivered into the one-slot
    buffer of `signalCh` (a signal arriving while one is pending is dropped,
    as `signal.Notify` never blocks); `run` returns and `main` cancels the
    context; or the `select` runs once. When both of its cases are ready the
    Go runtime picks one at random, which the input records as a choice.

    In `main` the `cancel` handed to `Monitor` is the one of the context it
    selects on (`shared`); the corrected wiring gives the monitor a context
    that only the end of `run` cancels. */
module Shutdown {

  datatype Input =
    | SigArrives                    // a SIGINT or SIGTERM reaches signalCh
    | RunEnds                       // run returned and main called cancel
    | Tick(preferSignal: bool)      // one pass of the select

  /** What the loop does in response to a signal: a call of `PrintWarn`, of
      `cancel`, of `PrintErr`, or of `os.Exit`. */
  datatype Action = Warned(msg: string) | Cancelled | ErrPrinted(msg: string) | ExitCalled(code: int)

  /** Still looping, with `count` signals handled, whether a signal waits in
      the buffer and whether the context is done; returned; or ended the
      process with an exit code. */
  datatype State = Listening(count: nat, pending: bool, done: bool) | Returned | Exited(code: int)

  const Initiating: string := "initiating shutdown"
  const Ongoing: string := "graceful shutdown ongoing, cancel again to force shutdown"
  const Forcing: string := "forcing shutdown"

  /** The response to a signal after `count` earlier ones. */
  function OnSignal(count: nat): (r: seq<Action>)
    ensures Cancelled in r <==> count == 0
    ensures ExitCalled(1) in r <==> count >= 2
  {
    if count == 0 then [Warned(Initiating), Cancelled]
    else if count == 1 then [Warned(Ongoing)]
    else [ErrPrinted(Forcing), ExitCalled(1)]
  }

  /** One input. A pass of the `select` takes the signal when it is the only
      ready case or wins the random choice, returns when the context is done
      and the signal does not win, and otherwise blocks. */
  function Step(shared: bool, count: nat, pending: bool, done: bool, input: Input): (r: (seq<Action>, State))
    ensures r.1.Listening? && input.Tick? && r.1.count == count ==> !pending && !done && r.0 == []
    ensures r.1.Returned? ==> done && input.Tick? && !(pending && input.preferSignal) && r.0 == []
    ensures r.1.Exited? ==> r.1.code == 1 && count >= 2 && pending && input.Tick? && (!done || input.preferSignal)
  {
    match input
    case SigArrives => ([], Listening(count, true, done))
    case RunEnds => ([], Listening(count, pending, true))
    case Tick(preferSignal) =>
      if pending && (!done || preferSignal) then
        if count >= 2 then (OnSignal(count), Exited(1))
        else (OnSignal(count), Listening(count + 1, false, done || (shared && count == 0)))
      else if done then ([], Returned)
      else ([], Listening(count, pending, done))
  }

  /** The actions taken, where the loop ended up, and how many inputs it
      read. */
  datatype Monitored = Monitored(actions: seq<Action>, state: State, consumed: nat)

  /** The loop from a given state, reading inputs until it returns or exits. */
  function Loop(shared: bool, count: nat, pending: bool, done: bool, inputs: seq<Input>): (r: Monitored)
    ensures r.consumed <= |inputs|
    ensures r.state.Listening? ==> r.consumed == |inputs|
    ensures !r.state.Listening? ==> r.consumed >= 1
    ensures r.state.Exited? ==> r.state.code == 1 && |r.actions| >= 1 && r.actions[|r.actions| - 1] == ExitCalled(1)
    decreases |inputs|
  {
    if |inputs| == 0 then Monitored([], Listening(count, pending, done), 0)
    else
      var (acts, st) := Step(shared, count, pending, done, inputs[0]);
      if st.Listening? then
        var r := Loop(shared, st.count, st.pending, st.done, inputs[1..]);
        Monitored(acts + r.actions, r.state, r.consumed + 1)
      else Monitored(acts, st, 1)
  }

  /** `Monitor` as `main` wires it: its `cancel` also makes its own context
      done. */
  function Monitor(inputs: seq<Input>): (r: Monitored)
    ensures r.consumed <= |inputs|
    ensures r.state.Exited? ==> r.state.code == 1
  {
    Loop(true, 0, false, false, inputs)
  }

  /** The corrected wiring: the monitor's context is done only when `run`
      has returned. */
  function MonitorCorrected(inputs: seq<Input>): Monitored {
    Loop(false, 0, false, false, inputs)
  }

  // ---------------------------------------------------------------------
  // Cancellation
  // ---------------------------------------------------------------------

  /** The number of `cancel` calls among some actions. */
  function Cancels(actions: seq<Action>): nat
    decreases |actions|
  {
    if |actions| == 0 then 0
    else (if actions[0] == Cancelled then 1 else 0) + Cancels(actions[1..])
  }

  lemma {:induction false} CancelsConcat(a: seq<Action>, b: seq<Action>)
    ensures Cancels(a + b) == Cancels(a) + Cancels(b)
    decreases |a|
  {
    if |a| == 0 {
      assert a + b == b;
    } else {
      assert (a + b)[0] == a[0];
      assert (a + b)[1..] == a[1..] + b;
      CancelsConcat(a[1..], b);
    }
  }

  /** Only the response to the first signal cancels. */
  lemma OnSignalCancels(count: nat)
    ensures Cancels(OnSignal(count)) == (if count == 0 then 1 else 0)
  {
    var r := OnSignal(count);
    assert r[0] != Cancelled;
    if count == 0 {
      assert r[1..] == [Cancelled] && r[1..][1..] == [];
    } else if count == 1 {
      assert r[1..] == [];
    } else {
      assert r[1..] == [ExitCalled(1)] && r[1..][1..] == [];
      assert Cancels(r[1..]) == 0;
    }
  }

  /** From `count` handled signals on, `cancel` is called at most once, and
      only when no signal has been handled yet. */
  lemma {:induction false} LoopCancels(shared: bool, count: nat, pending: bool, done: bool, inputs: seq<Input>)
    ensures Cancels(Loop(shared, count, pending, done, inputs).actions) <= (if count == 0 then 1 else 0)
    decreases |inputs|
  {
    if |inputs| > 0 {
      var (acts, st) := Step(shared, count, pending, done, inputs[0]);
      if acts != [] {
        OnSignalCancels(count);
      }
      assert Cancels([]) == 0;
      if st.Listening? {
        LoopCancels(shared, st.count, st.pending, st.done, inputs[1..]);
        CancelsConcat(acts, Loop(shared, st.count, st.pending, st.done, inputs[1..]).actions);
      }
    }
  }

  /** `cancel` is called at most once, whichever way the monitor is wired. */
  lemma CancelAtMostOnce(shared: bool, inputs: seq<Input>)
    ensures Cancels(Loop(shared, 0, false, false, inputs).actions) <= 1
  {
    LoopCancels(shared, 0, false, false, inputs);
  }

  // ---------------------------------------------------------------------
  // The forced shutdown as written
  // ---------------------------------------------------------------------

  /** The passes of the `select` at which the random choice favours the
      signal. */
  function Preferred(inputs: seq<Input>): nat
    decreases |inputs|
  {
    if |inputs| == 0 then 0
    else (if inputs[0] == Tick(true) then 1 else 0) + Preferred(inputs[1..])
  }

  /** The signals still to be handled before the third one ends the
      process, counting only those that need the random choice to favour
      them. */
  function RacesLeft(count: nat): nat {
    if count == 0 then 2 else if count >= 3 then 0 else 3 - count
  }

  /** As written, once a signal has been handled the context is done, so
      every further signal is taken only when it wins the random choice
      against the ready `Done` case. */
  lemma {:induction false} ExitNeedsRaces(count: nat, pending: bool, done: bool, inputs: seq<Input>)
    requires count >= 1 ==> done
    ensures Loop(true, count, pending, done, inputs).state.Exited? ==> Preferred(inputs) >= RacesLeft(count)
    decreases |inputs|
  {
    if |inputs| > 0 {
      var (acts, st) := Step(true, count, pending, done, inputs[0]);
      if st.Listening? {
        ExitNeedsRaces(st.count, st.pending, st.done, inputs[1..]);
      }
    }
  }

  /** As written, the process is forced down only if the signal wins the
      random choice against the already done context twice. */
  lemma ExitNeedsTwoWonRaces(inputs: seq<Input>)
    ensures Monitor(inputs).state.Exited? ==> Preferred(inputs) >= 2
  {
    ExitNeedsRaces(0, false, false, inputs);
  }

  /** As written, the pass of the `select` right after the first signal
      returns unless a second signal is already waiting: the monitor stops
      listening after one warning and one `cancel`. */
  lemma QuietAfterCancel(a: bool, b: bool, rest: seq<Input>)
    ensures Monitor([SigArrives, Tick(a), Tick(b)] + rest)
         == Monitored([Warned(Initiating), Cancelled], Returned, 3)
  {
    var i0 := [SigArrives, Tick(a), Tick(b)] + rest;
    var i1 := [Tick(a), Tick(b)] + rest;
    var i2 := [Tick(b)] + rest;
    assert i0[1..] == i1 && i1[1..] == i2;
    assert Loop(true, 1, false, true, i2) == Monitored([], Returned, 1);
    assert Loop(true, 0, true, false, i1) == Monitored(OnSignal(0) + [], Returned, 2);
    assert Loop(true, 0, false, false, i0) == Monitored([] + (OnSignal(0) + []), Returned, 3);
  }

  /** The forced shutdown as written does happen when two further signals
      each wait in the buffer and win the random choice. */
  lemma ForcedByWonRaces(a: bool, rest: seq<Input>)
    ensures Monitor([SigArrives, Tick(a), SigArrives, Tick(true), SigArrives, Tick(true)] + rest).state == Exited(1)
  {
    var i0 := [SigArrives, Tick(a), SigArrives, Tick(true), SigArrives, Tick(true)] + rest;
    var i1 := [Tick(a), SigArrives, Tick(true), SigArrives, Tick(true)] + rest;
    var i2 := [SigArrives, Tick(true), SigArrives, Tick(true)] + rest;
    var i3 := [Tick(true), SigArrives, Tick(true)] + rest;
    var i4 := [SigArrives, Tick(true)] + rest;
    var i5 := [Tick(true)] + rest;
    assert i0[1..] == i1 && i1[1..] == i2 && i2[1..] == i3 && i3[1..] == i4 && i4[1..] == i5;
    assert Loop(true, 2, true, true, i5).state == Exited(1);
    assert Loop(true, 2, false, true, i4).state == Exited(1);
    assert Loop(true, 1, true, true, i3).state == Exited(1);
    assert Loop(true, 1, false, true, i2).state == Exited(1);
    assert Loop(true, 0, true, false, i1).state == Exited(1);
  }

  /** When `run` has ended before any signal, the next pass of the `select`
      returns and nothing is done. */
  lemma DoneFirstDoesNothing(shared: bool, p: bool, rest: seq<Input>)
    ensures Loop(shared, 0, false, false, [RunEnds, Tick(p)] + rest) == Monitored([], Returned, 2)
  {
    var inputs := [RunEnds, Tick(p)] + rest;
    assert inputs[1..] == [Tick(p)] + rest;
  }

  // ---------------------------------------------------------------------
  // The corrected wiring
  // ---------------------------------------------------------------------

  /** With the corrected wiring the monitor keeps listening until `run` has
      ended. */
  lemma {:induction false} CorrectedListensUntilRunEnds(count: nat, pending: bool, inputs: seq<Input>)
    ensures Loop(false, count, pending, false, inputs).state.Returned? ==> RunEnds in inputs
    decreases |inputs|
  {
    if |inputs| > 0 && inputs[0] != RunEnds {
      var (acts, st) := Step(false, count, pending, false, inputs[0]);
      if st.Listening? {
        CorrectedListensUntilRunEnds(st.count, st.pending, inputs[1..]);
        assert inputs == [inputs[0]] + inputs[1..];
      }
    }
  }

  /** With the corrected wiring the monitor returns only after `run`. */
  lemma CorrectedReturnsOnlyAfterRun(inputs: seq<Input>)
    ensures MonitorCorrected(inputs).state.Returned? ==> RunEnds in inputs
  {
    CorrectedListensUntilRunEnds(0, false, inputs);
  }

  /** With the corrected wiring, three signals while `run` is still at work
      warn, cancel, warn again and then force the exit with code 1,
      whatever the random choices. */
  lemma CorrectedForcesOnThirdSignal(a: bool, b: bool, c: bool, rest: seq<Input>)
    ensures MonitorCorrected([SigArrives, Tick(a), SigArrives, Tick(b), SigArrives, Tick(c)] + rest)
         == Monitored([Warned(Initiating), Cancelled, Warned(Ongoing), ErrPrinted(Forcing), ExitCalled(1)], Exited(1), 6)
  {
    var i0 := [SigArrives, Tick(a), SigArrives, Tick(b), SigArrives, Tick(c)] + rest;
    var i1 := [Tick(a), SigArrives, Tick(b), SigArrives, Tick(c)] + rest;
    var i2 := [SigArrives, Tick(b), SigArrives, Tick(c)] + rest;
    assert i0[1..] == i1 && i1[1..] == i2;
    var two := CorrectedLaterSignals(b, c, rest);
    var three := OnSignal(0) + ([] + two);
    assert Loop(false, 0, true, false, i1) == Monitored(three, Exited(1), 5);
    assert Loop(false, 0, false, false, i0) == Monitored([] + three, Exited(1), 6);
    assert [] + three == [Warned(Initiating), Cancelled, Warned(Ongoing), ErrPrinted(Forcing), ExitCalled(1)];
  }

  /** The second and third signal under the corrected wiring. */
  lemma CorrectedLaterSignals(b: bool, c: bool, rest: seq<Input>) returns (two: seq<Action>)
    ensures two == [Warned(Ongoing), ErrPrinted(Forcing), ExitCalled(1)]
    ensures Loop(false, 1, false, false, [SigArrives, Tick(b), SigArrives, Tick(c)] + rest)
         == Monitored([] + two, Exited(1), 4)
  {
    var i2 := [SigArrives, Tick(b), SigArrives, Tick(c)] + rest;
    var i3 := [Tick(b), SigArrives, Tick(c)] + rest;
    var i4 := [SigArrives, Tick(c)] + rest;
    var i5 := [Tick(c)] + rest;
    assert i2[1..] == i3 && i3[1..] == i4 && i4[1..] == i5;
    var last := OnSignal(2);
    assert Loop(false, 2, true, false, i5) == Monitored(last, Exited(1), 1);
    assert Loop(false, 2, false, false, i4) == Monitored([] + last, Exited(1), 2);
    two := OnSignal(1) + ([] + last);
    assert Loop(false, 1, true, false, i3) == Monitored(two, Exited(1), 3);
  }
}
