/**
  A small model of the event-driven process runtime the chapter-10 samples are built on.
  A process is a list of subscriptions (a source event and the step function it is sent
  to), compiled into a routing table. Running it takes the next message off a queue,
  invokes the target function, routes what that function emitted (events without a
  subscription are dropped) onto the back of the queue, and logs the target.
 */
module ProcessEngine {
  import opened Wrappers

  /** `source.OnEvent(...).SendEventTo(target)`: events with key `key` go to `target`. */
  datatype Edge<K, T> = Edge(key: K, target: T)

  /** An event a step function emitted, with its payload. */
  datatype Emission<K, V> = Emission(key: K, payload: V)

  /** A routed event waiting for its target function. */
  datatype Message<T, V> = Message(target: T, payload: V)

  /** What a step function does when invoked: its new process state and its emissions. */
  datatype Reaction<S, K, V> = Reaction(state: S, emitted: seq<Emission<K, V>>)

  /** The process between steps: step states, pending messages, and the functions run so far. */
  datatype Run<S, T, V> = Run(state: S, queue: seq<Message<T, V>>, log: seq<T>)

  predicate UniqueKeys<K(==), T>(edges: seq<Edge<K, T>>) {
    forall i, j :: 0 <= i < j < |edges| ==> edges[i].key != edges[j].key
  }

  /** The routing table a list of subscriptions builds. */
  function Table<K(==), T>(edges: seq<Edge<K, T>>): map<K, T> {
    if |edges| == 0 then map[]
    else Table(edges[..|edges| - 1])[edges[|edges| - 1].key := edges[|edges| - 1].target]
  }

  /**
    With one subscription per key, the table routes each subscribed key to its target and
    nothing else: its keys are exactly the subscribed ones.
   */
  lemma {:induction false} TableRoutes<K, T>(edges: seq<Edge<K, T>>)
    requires UniqueKeys(edges)
    ensures forall k :: 0 <= k < |edges| ==> edges[k].key in Table(edges) && Table(edges)[edges[k].key] == edges[k].target
    ensures forall key :: key in Table(edges) <==> exists k :: 0 <= k < |edges| && edges[k].key == key
  {
    if |edges| > 0 {
      var init := edges[..|edges| - 1];
      assert UniqueKeys(init) by {
        forall i, j | 0 <= i < j < |init| ensures init[i].key != init[j].key {
          assert init[i] == edges[i] && init[j] == edges[j];
        }
      }
      TableRoutes(init);
      forall key ensures key in Table(edges) <==> exists k :: 0 <= k < |edges| && edges[k].key == key {
        if key in Table(init) {
          var k :| 0 <= k < |init| && init[k].key == key;
          assert edges[k].key == key;
        }
        if exists k :: 0 <= k < |edges| && edges[k].key == key {
          var k :| 0 <= k < |edges| && edges[k].key == key;
          if k < |init| {
            assert init[k].key == key;
          }
        }
      }
    }
  }

  /** Routes emissions in order; an emission nobody subscribed to is dropped. */
  function Route<K(==), T, V>(table: map<K, T>, emitted: seq<Emission<K, V>>): (r: seq<Message<T, V>>)
    ensures |r| <= |emitted|
  {
    if |emitted| == 0 then []
    else
      var e := emitted[0];
      (if e.key in table then [Message(table[e.key], e.payload)] else []) + Route(table, emitted[1..])
  }

  /** Routing keeps exactly the subscribed emissions, each sent to its target, in order. */
  lemma {:induction false} RouteFilters<K, T, V>(table: map<K, T>, emitted: seq<Emission<K, V>>)
    ensures |Route(table, emitted)| == |Routed(table, emitted)|
    ensures forall k :: 0 <= k < |Routed(table, emitted)| ==>
      Route(table, emitted)[k] == Message(table[Routed(table, emitted)[k].key], Routed(table, emitted)[k].payload)
  {
    if |emitted| > 0 {
      RouteFilters(table, emitted[1..]);
    }
  }

  /** A single emission is delivered to its target exactly when it has a subscription. */
  lemma RouteOne<K, T, V>(table: map<K, T>, e: Emission<K, V>)
    ensures Route(table, [e]) == (if e.key in table then [Message(table[e.key], e.payload)] else [])
  {
    assert [e][1..] == [];
  }

  /** Two emissions are routed one after the other. */
  lemma RouteTwo<K, T, V>(table: map<K, T>, e1: Emission<K, V>, e2: Emission<K, V>)
    ensures Route(table, [e1, e2]) == Route(table, [e1]) + Route(table, [e2])
  {
    assert [e1, e2][1..] == [e2];
    RouteOne(table, e1);
  }

  /** The emissions that have a subscription. */
  function Routed<K(==), T, V>(table: map<K, T>, emitted: seq<Emission<K, V>>): (r: seq<Emission<K, V>>)
    ensures forall k :: 0 <= k < |r| ==> r[k].key in table && r[k] in emitted
  {
    if |emitted| == 0 then []
    else (if emitted[0].key in table then [emitted[0]] else []) + Routed(table, emitted[1..])
  }

  /** Sending an event into the process from outside (`StartAsync` with an input event). */
  function Start<S, K(==), T, V>(table: map<K, T>, state: S, input: Emission<K, V>): (r: Run<S, T, V>)
    ensures r.state == state && r.log == []
    ensures r.queue == (if input.key in table then [Message(table[input.key], input.payload)] else [])
  {
    Run(state, Route(table, [input]), [])
  }

  /** One step: the head message's function runs and what it emits is routed to the back of the queue. */
  function Deliver<S, K(==), T, V>(table: map<K, T>, invoke: (S, T, V) -> Reaction<S, K, V>, r: Run<S, T, V>): (r': Run<S, T, V>)
    requires |r.queue| > 0
    ensures r'.log == r.log + [r.queue[0].target]
    ensures r'.state == invoke(r.state, r.queue[0].target, r.queue[0].payload).state
    ensures r'.queue == r.queue[1..] + Route(table, invoke(r.state, r.queue[0].target, r.queue[0].payload).emitted)
  {
    var m := r.queue[0];
    var reaction := invoke(r.state, m.target, m.payload);
    Run(reaction.state, r.queue[1..] + Route(table, reaction.emitted), r.log + [m.target])
  }

  /** At most `fuel` steps, stopping early when the queue runs dry. */
  function RunFor<S, K(==), T, V>(table: map<K, T>, invoke: (S, T, V) -> Reaction<S, K, V>, r: Run<S, T, V>, fuel: nat): (r': Run<S, T, V>)
    decreases fuel
  {
    if fuel == 0 || |r.queue| == 0 then r
    else RunFor(table, invoke, Deliver(table, invoke, r), fuel - 1)
  }

  /** A run only appends to the log, one entry per step taken. */
  lemma {:induction false} RunForLog<S, K, T, V>(table: map<K, T>, invoke: (S, T, V) -> Reaction<S, K, V>,
                                                r: Run<S, T, V>, fuel: nat)
    ensures |r.log| <= |RunFor(table, invoke, r, fuel).log| <= |r.log| + fuel
    ensures RunFor(table, invoke, r, fuel).log[..|r.log|] == r.log
    decreases fuel
  {
    if fuel > 0 && |r.queue| > 0 {
      var next := Deliver(table, invoke, r);
      RunForLog(table, invoke, next, fuel - 1);
      assert next.log[..|r.log|] == r.log;
    }
  }

  /** Running `a` steps and then `b` more is running `a + b` steps. */
  lemma {:induction false} RunForAdd<S, K, T, V>(table: map<K, T>, invoke: (S, T, V) -> Reaction<S, K, V>,
                                                    r: Run<S, T, V>, a: nat, b: nat)
    ensures RunFor(table, invoke, r, a + b) == RunFor(table, invoke, RunFor(table, invoke, r, a), b)
    decreases a
  {
    if a > 0 && |r.queue| > 0 {
      RunForAdd(table, invoke, Deliver(table, invoke, r), a - 1, b);
    }
  }

  /** `RunForAdd` with the total given: `c` steps split into `a` and then `b`. */
  lemma RunForSplit<S, K, T, V>(table: map<K, T>, invoke: (S, T, V) -> Reaction<S, K, V>,
                                r: Run<S, T, V>, a: nat, b: nat, c: nat)
    requires c == a + b
    ensures RunFor(table, invoke, r, c) == RunFor(table, invoke, RunFor(table, invoke, r, a), b)
  {
    RunForAdd(table, invoke, r, a, b);
  }

  /** A value stored in the kernel's shared data dictionary. */
  datatype Value = Str(text: string) | Int(number: int) | Null

  /** The kernel's shared data dictionary, which steps and callers read and write by key. */
  type KernelData = map<string, Value>

  /** The exceptions a read of the dictionary can raise. */
  datatype Fault = KeyNotFound(key: string) | InvalidCast(key: string) | NullReference(key: string)

  /**
    `(string)data[key]!`: the indexer throws on a missing key, the cast throws on a
    non-string, and a stored null passes through as null.
   */
  function CastString(data: KernelData, key: string): (r: Result<Option<string>, Fault>)
    ensures r.Failure? <==> key !in data || data[key].Int?
    ensures r == Success(None) <==> key in data && data[key].Null?
    ensures forall s :: r == Success(Some(s)) <==> key in data && data[key] == Str(s)
    ensures key !in data ==> r == Failure(KeyNotFound(key))
    ensures key in data && data[key].Int? ==> r == Failure(InvalidCast(key))
  {
    if key !in data then Failure(KeyNotFound(key))
    else match data[key]
      case Str(s) => Success(Some(s))
      case Null => Success(None)
      case Int(_) => Failure(InvalidCast(key))
  }

  /**
    `(int)data[key]!`: the indexer throws on a missing key, unboxing a null throws, and
    unboxing a non-integer throws.
   */
  function CastInt(data: KernelData, key: string): (r: Result<int, Fault>)
    ensures r.Success? <==> key in data && data[key].Int?
    ensures r.Success? ==> data[key] == Int(r.value)
    ensures key !in data ==> r == Failure(KeyNotFound(key))
    ensures key in data && data[key].Null? ==> r == Failure(NullReference(key))
    ensures key in data && data[key].Str? ==> r == Failure(InvalidCast(key))
  {
    if key !in data then Failure(KeyNotFound(key))
    else match data[key]
      case Int(n) => Success(n)
      case Null => Failure(NullReference(key))
      case Str(_) => Failure(InvalidCast(key))
  }

  /**
    `data[key] as string`: the indexer throws on a missing key; anything stored that is not
    a string reads as null.
   */
  function AsString(data: KernelData, key: string): (r: Result<Option<string>, Fault>)
    ensures r.Failure? <==> key !in data
    ensures forall s :: r == Success(Some(s)) <==> key in data && data[key] == Str(s)
  {
    if key !in data then Failure(KeyNotFound(key))
    else if data[key].Str? then Success(Some(data[key].text))
    else Success(None)
  }
}
