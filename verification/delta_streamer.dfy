/** The broadcast dispatcher of internal/wsinject/delta_streamer.go, run
    sequentially. The subscriber registry (`wsDispatcher`, a `sync.Map`)
    maps a subscriber key to its channel; each channel is represented by
    what it has been sent so far and whether it has been closed. The
    dispatcher's input is what it receives from `pageReloadChan`; the
    registrations and removals made by the connection handlers are
    interleaved with it as inputs of their own. */
module DeltaStreamer {

  type Id = string

  /** What a subscriber channel has carried, in order, and whether it has
      been closed. */
  datatype Channel = Channel(delivered: seq<string>, closed: bool)

  /** The registry, every channel ever created (a channel outlives its
      registry entry), and whether the dispatcher loop is still running. */
  datatype Dispatcher = Dispatcher(registry: set<Id>, channels: map<Id, Channel>, running: bool)

  /** Every registered subscriber has a channel, and while the dispatcher
      runs no channel has been closed. */
  predicate Valid(d: Dispatcher) {
    && d.registry <= d.channels.Keys
    && (d.running ==> forall id :: id in d.channels ==> !d.channels[id].closed)
  }

  datatype Input =
    | Received(page: string)   // a value received from pageReloadChan
    | SourceClosed             // pageReloadChan was closed
    | Store(id: Id)            // a connection handler registers a fresh channel
    | Delete(id: Id)           // a connection handler removes its entry

  /** The `Range` over the registry on a received value: every registered
      channel is sent the value once; the registry and every other channel
      are left as they are. */
  function Broadcast(d: Dispatcher, page: string): (r: Dispatcher)
    requires Valid(d)
    ensures r.registry == d.registry && r.running == d.running
    ensures r.channels.Keys == d.channels.Keys
    ensures forall id :: id in d.registry ==>
              r.channels[id] == Channel(d.channels[id].delivered + [page], d.channels[id].closed)
    ensures forall id :: id in d.channels && id !in d.registry ==> r.channels[id] == d.channels[id]
  {
    d.(channels := map id | id in d.channels ::
         if id in d.registry then d.channels[id].(delivered := d.channels[id].delivered + [page])
         else d.channels[id])
  }

  /** The `Range` over the registry once `pageReloadChan` is closed: every
      registered channel is closed and the loop returns. */
  function CloseAll(d: Dispatcher): (r: Dispatcher)
    requires Valid(d)
    ensures r.registry == d.registry && !r.running
    ensures r.channels.Keys == d.channels.Keys
    ensures forall id :: id in d.registry ==>
              r.channels[id] == Channel(d.channels[id].delivered, true)
    ensures forall id :: id in d.channels && id !in d.registry ==> r.channels[id] == d.channels[id]
  {
    Dispatcher(d.registry,
               map id | id in d.channels ::
                 if id in d.registry then d.channels[id].(closed := true) else d.channels[id],
               false)
  }

  /** One input while the loop runs. */
  function Step(d: Dispatcher, input: Input): (r: Dispatcher)
    requires Valid(d) && d.running
    ensures Valid(r)
    ensures input.Received? || input.SourceClosed? ==> r.registry == d.registry
    ensures r.running <==> !input.SourceClosed?
  {
    match input
    case Received(page) => Broadcast(d, page)
    case SourceClosed => CloseAll(d)
    case Store(id) => d.(registry := d.registry + {id}, channels := d.channels[id := Channel([], false)])
    case Delete(id) => d.(registry := d.registry - {id})
  }

  /** The state after the loop has consumed a prefix of its inputs, and the
      length of that prefix. */
  datatype DispatchRun = DispatchRun(final: Dispatcher, consumed: nat)

  /** `wsDispatcherStart`: handles inputs until `pageReloadChan` is closed. */
  function Run(d: Dispatcher, inputs: seq<Input>): (r: DispatchRun)
    requires Valid(d) && d.running
    ensures Valid(r.final) && r.consumed <= |inputs|
    decreases |inputs|
  {
    if |inputs| == 0 then DispatchRun(d, 0)
    else
      var d' := Step(d, inputs[0]);
      if !d'.running then DispatchRun(d', 1)
      else
        var r := Run(d', inputs[1..]);
        DispatchRun(r.final, r.consumed + 1)
  }

  /** The position of the first `SourceClosed`, or `|inputs|`. */
  function FirstClose(inputs: seq<Input>): (k: nat)
    ensures k <= |inputs|
    ensures forall j :: 0 <= j < k ==> !inputs[j].SourceClosed?
    ensures k < |inputs| ==> inputs[k].SourceClosed?
    decreases |inputs|
  {
    if |inputs| == 0 || inputs[0].SourceClosed? then 0 else FirstClose(inputs[1..]) + 1
  }

  /** The values received from `pageReloadChan`, in order. */
  function Pages(inputs: seq<Input>): seq<string>
    decreases |inputs|
  {
    if |inputs| == 0 then []
    else (if inputs[0].Received? then [inputs[0].page] else []) + Pages(inputs[1..])
  }

  /** No connection handler registers or removes `id` in these inputs. */
  predicate Untouched(inputs: seq<Input>, id: Id) {
    forall k :: 0 <= k < |inputs| ==> inputs[k] != Store(id) && inputs[k] != Delete(id)
  }

  /** The loop consumes its inputs up to and including the first
      `SourceClosed` and nothing after it; it stops exactly when it saw
      one. */
  lemma {:induction false} RunStopsAtClose(d: Dispatcher, inputs: seq<Input>)
    requires Valid(d) && d.running
    ensures var r := Run(d, inputs);
            var k := FirstClose(inputs);
            && r.consumed == (if k < |inputs| then k + 1 else |inputs|)
            && (r.final.running <==> k == |inputs|)
    decreases |inputs|
  {
    if |inputs| > 0 && !inputs[0].SourceClosed? {
      RunStopsAtClose(Step(d, inputs[0]), inputs[1..]);
    }
  }

  /** A subscriber registered throughout receives every value received
      before the close, once each and in order, and its channel is closed
      exactly when the loop sees the close. */
  lemma {:induction false} SteadySubscriberSeesAll(d: Dispatcher, inputs: seq<Input>, id: Id)
    requires Valid(d) && d.running && id in d.registry
    requires Untouched(inputs, id)
    ensures var r := Run(d, inputs).final;
            var k := FirstClose(inputs);
            && id in r.registry
            && r.channels[id].delivered == d.channels[id].delivered + Pages(inputs[..k])
            && (r.channels[id].closed <==> k < |inputs|)
    decreases |inputs|
  {
    var k := FirstClose(inputs);
    if |inputs| > 0 {
      var d' := Step(d, inputs[0]);
      if inputs[0].SourceClosed? {
        assert inputs[..k] == [];
      } else {
        assert inputs[0] != Store(id) && inputs[0] != Delete(id);
        assert Untouched(inputs[1..], id) by {
          forall j | 0 <= j < |inputs[1..]|
            ensures inputs[1..][j] != Store(id) && inputs[1..][j] != Delete(id)
          {
            assert inputs[1..][j] == inputs[j + 1];
          }
        }
        SteadySubscriberSeesAll(d', inputs[1..], id);
        assert inputs[..k][1..] == inputs[1..][..k - 1];
        assert inputs[..k][0] == inputs[0];
      }
    } else {
      assert inputs[..k] == [];
    }
  }

  /** A subscriber that is not registered and does not register receives
      nothing, and its channel is not closed by the dispatcher. */
  lemma {:induction false} AbsentSubscriberGetsNothing(d: Dispatcher, inputs: seq<Input>, id: Id)
    requires Valid(d) && d.running && id !in d.registry
    requires forall k :: 0 <= k < |inputs| ==> inputs[k] != Store(id)
    ensures var r := Run(d, inputs).final;
            && id !in r.registry
            && (id in r.channels <==> id in d.channels)
            && (id in d.channels ==> r.channels[id] == d.channels[id])
    decreases |inputs|
  {
    if |inputs| > 0 {
      var d' := Step(d, inputs[0]);
      if d'.running {
        forall j | 0 <= j < |inputs[1..]| ensures inputs[1..][j] != Store(id) {
          assert inputs[1..][j] == inputs[j + 1];
        }
        AbsentSubscriberGetsNothing(d', inputs[1..], id);
      }
    }
  }

  /** The dispatcher never changes the registry: over inputs that hold no
      registrations or removals, the registry stays as it was. */
  lemma {:induction false} DispatcherOnlyReadsRegistry(d: Dispatcher, inputs: seq<Input>)
    requires Valid(d) && d.running
    requires forall k :: 0 <= k < |inputs| ==> inputs[k].Received? || inputs[k].SourceClosed?
    ensures Run(d, inputs).final.registry == d.registry
    decreases |inputs|
  {
    if |inputs| > 0 {
      var d' := Step(d, inputs[0]);
      if d'.running {
        forall j | 0 <= j < |inputs[1..]| ensures inputs[1..][j].Received? || inputs[1..][j].SourceClosed? {
          assert inputs[1..][j] == inputs[j + 1];
        }
        DispatcherOnlyReadsRegistry(d', inputs[1..]);
      }
    }
  }
}
