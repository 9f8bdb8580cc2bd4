/** The network: an ordered list of layers of neurons, addressed by
    (layer, index), a list of all connections, and the learning set. The
    neurons are values in the layer arena; a connection is referred to by its
    index in the connection list. */
module NeuralNetworks {
  import opened Neurons

  /** The largest `unsigned`; `getNumberOfLayers() - 1` wraps to it when the
      network has no layer. */
  const UnsignedMax: nat := 0xFFFF_FFFF

  type Unsigned = x: nat | x <= UnsignedMax

  datatype Option<T> = None | Some(value: T)

  type LearningVector = seq<real>

  datatype LearningPoint = LearningPoint(inputs: LearningVector, outputs: LearningVector)

  /** Which check of `connect` decided the outcome (the C++ code reports each
      rejection as a message and returns). */
  datatype ConnectStatus =
    | Connected
    | DestinationIsInput
    | SourceIsOutput
    | SameLayer
    | DestinationBelowSource
    | NoSuchSource
    | NoSuchDestination
    | AlreadyConnected

  /** The indices, in increasing order, of the connections that end at p. */
  function IncomingIds(connections: seq<Connection>, p: Position): (r: seq<nat>)
    ensures forall k :: 0 <= k < |r| ==> r[k] < |connections| && connections[r[k]].destination == p
    decreases |connections|
  {
    if connections == [] then []
    else
      var n := |connections| - 1;
      IncomingIds(connections[..n], p) + (if connections[n].destination == p then [n] else [])
  }

  /** The indices, in increasing order, of the connections that start at p. */
  function OutgoingIds(connections: seq<Connection>, p: Position): (r: seq<nat>)
    ensures forall k :: 0 <= k < |r| ==> r[k] < |connections| && connections[r[k]].source == p
    decreases |connections|
  {
    if connections == [] then []
    else
      var n := |connections| - 1;
      OutgoingIds(connections[..n], p) + (if connections[n].source == p then [n] else [])
  }

  /** The number of neurons on each layer. */
  function Widths(layers: seq<seq<Neuron>>): (w: seq<nat>)
    ensures |w| == |layers| && forall l :: 0 <= l < |layers| ==> w[l] == |layers[l]|
  {
    seq(|layers|, l requires 0 <= l < |layers| => |layers[l]|)
  }

  /** The two ends of every connection, in order. */
  function Ends(connections: seq<Connection>): (e: seq<(Position, Position)>)
    ensures |e| == |connections|
    ensures forall k :: 0 <= k < |connections| ==> e[k] == (connections[k].source, connections[k].destination)
  {
    seq(|connections|, k requires 0 <= k < |connections| => (connections[k].source, connections[k].destination))
  }

  /** The neuron arena and the connection list together. */
  datatype Topology = Topology(layers: seq<seq<Neuron>>, connections: seq<Connection>) {

    /** `getNumberOfNeuronsOnLayer`: the width of a layer, 0 (with an error
        report) for a layer that does not exist. */
    function NumberOfNeuronsOnLayer(layer: nat): (n: nat)
      ensures layer < |layers| ==> n == |layers[layer]|
      ensures layer >= |layers| ==> n == 0
    {
      if layer >= |layers| then 0 else |layers[layer]|
    }

    /** `getNumberOfLayers() - 1` in 32-bit unsigned arithmetic: one less
        than the layer count modulo 2^32, so 2^32 - 1 for no layers. */
    function LastLayer(): (r: nat)
      ensures (r + 1) % (UnsignedMax + 1) == |layers| % (UnsignedMax + 1)
      ensures |layers| > 0 ==> r < |layers|
    {
      if |layers| == 0 then UnsignedMax else |layers| - 1
    }

    /** `neuronExists`. */
    predicate NeuronExists(layer: nat, index: nat)
      ensures NeuronExists(layer, index) <==> Exists(layers, Position(layer, index))
    {
      if layer >= |layers| then false
      else if index >= NumberOfNeuronsOnLayer(layer) then false
      else true
    }

    /** `getNeuron`: the neuron at (layer, index), or nothing (a null pointer
        and an error report) when there is none. */
    function GetNeuron(layer: nat, index: nat): (r: Option<Neuron>)
      ensures r.Some? <==> Exists(layers, Position(layer, index))
      ensures r.Some? ==> r.value == layers[layer][index]
    {
      if !NeuronExists(layer, index) then None else Some(layers[layer][index])
    }

    function At(p: Position): Neuron
      requires Exists(layers, p)
    {
      layers[p.layer][p.index]
    }

    /** `getType` of the neuron at p. */
    function RoleAt(p: Position): Role
      requires Exists(layers, p)
    {
      RoleOf(p.layer, |layers|, NumberOfInputs(At(p)))
    }

    /** Some connection goes from src to dst. */
    predicate HasConnection(src: Position, dst: Position)
    {
      exists k :: 0 <= k < |connections| && connections[k].source == src && connections[k].destination == dst
    }

    /** The arena invariant: every connection joins two existing neurons and
        goes to a strictly higher layer; every neuron lists exactly the
        connections that end and start at it, in creation order. */
    ghost predicate Valid()
    {
      && (forall k :: 0 <= k < |connections| ==>
            && Exists(layers, connections[k].source)
            && Exists(layers, connections[k].destination)
            && connections[k].source.layer < connections[k].destination.layer)
      && (forall l, i :: 0 <= l < |layers| && 0 <= i < |layers[l]| ==>
            && layers[l][i].inputs == IncomingIds(connections, Position(l, i))
            && layers[l][i].outputs == OutgoingIds(connections, Position(l, i)))
    }

    /** The checks of `connect`, in the order the C++ code makes them. */
    function Decide(sourceLayer: nat, sourceIndex: nat, destinationLayer: nat, destinationIndex: nat): (s: ConnectStatus)
      ensures s == Connected <==>
        && sourceLayer < destinationLayer
        && Exists(layers, Position(sourceLayer, sourceIndex))
        && Exists(layers, Position(destinationLayer, destinationIndex))
        && !HasConnection(Position(sourceLayer, sourceIndex), Position(destinationLayer, destinationIndex))
      ensures destinationLayer == 0 ==> s == DestinationIsInput
      ensures destinationLayer != 0 && sourceLayer == LastLayer() ==> s == SourceIsOutput
    {
      if destinationLayer == 0 then DestinationIsInput
      else if sourceLayer == LastLayer() then SourceIsOutput
      else if sourceLayer == destinationLayer then SameLayer
      else if destinationLayer < sourceLayer then DestinationBelowSource
      else if !NeuronExists(sourceLayer, sourceIndex) then NoSuchSource
      else if !NeuronExists(destinationLayer, destinationIndex) then NoSuchDestination
      else if HasConnection(Position(sourceLayer, sourceIndex), Position(destinationLayer, destinationIndex)) then AlreadyConnected
      else Connected
    }

    /** The topology after the unchecked `connect(Neuron *, Neuron *)`: the
        source lists the new connection as outgoing, the destination as
        incoming, and it is appended to the connection list. */
    function WithConnection(c: Connection): Topology
      requires Exists(layers, c.source) && Exists(layers, c.destination)
      requires c.source.layer < c.destination.layer
    {
      var id := |connections|;
      var s := c.source;
      var d := c.destination;
      var afterSource := layers[s.layer := layers[s.layer][s.index := AddOutput(At(s), id)]];
      var afterDestination := afterSource[d.layer := afterSource[d.layer][d.index := AddInput(afterSource[d.layer][d.index], id)]];
      Topology(afterDestination, connections + [c])
    }

    /** A learning point `addLearningPoint` accepts: as many inputs as neurons
        on the first layer and as many outputs as on the last one (a layer
        that does not exist counts as empty). */
    predicate Fits(inputs: LearningVector, outputs: LearningVector)
    {
      |inputs| == NumberOfNeuronsOnLayer(0) && |outputs| == NumberOfNeuronsOnLayer(LastLayer())
    }

    /** The connection list after `setConnectionWeight(src, dst, weight)` found
        a connection: the first outgoing connection of src leading to dst is
        reweighted. */
    function Reweighted(src: Position, dst: Position, weight: real): seq<Connection>
      requires Exists(layers, src) && InRange(At(src).outputs, connections)
    {
      var outs := At(src).outputs;
      WeightSetAt(outs, connections, FirstTo(outs, connections, dst), weight)
    }
  }

  // ---------------------------------------------------------------------------
  // Lemmas about the arena

  lemma IdsSnoc(connections: seq<Connection>, c: Connection, p: Position)
    ensures IncomingIds(connections + [c], p) == IncomingIds(connections, p) + (if c.destination == p then [|connections|] else [])
    ensures OutgoingIds(connections + [c], p) == OutgoingIds(connections, p) + (if c.source == p then [|connections|] else [])
  {
    assert (connections + [c])[..|connections|] == connections;
  }

  /** The id lists depend only on the ends of the connections. */
  lemma {:induction false} IdsFollowEnds(a: seq<Connection>, b: seq<Connection>, p: Position)
    requires Ends(a) == Ends(b)
    ensures IncomingIds(a, p) == IncomingIds(b, p) && OutgoingIds(a, p) == OutgoingIds(b, p)
    decreases |a|
  {
    if a != [] {
      var n := |a| - 1;
      assert Ends(a)[n] == Ends(b)[n];
      assert Ends(a[..n]) == Ends(b[..n]) by {
        forall k | 0 <= k < n ensures Ends(a[..n])[k] == Ends(b[..n])[k] {
          assert Ends(a)[k] == Ends(b)[k];
        }
      }
      IdsFollowEnds(a[..n], b[..n], p);
    }
  }

  /** Exactly the connections starting at p are listed as outgoing. */
  lemma {:induction false} OutgoingMembers(connections: seq<Connection>, p: Position, k: nat)
    requires k < |connections| && connections[k].source == p
    ensures k in OutgoingIds(connections, p)
    decreases |connections|
  {
    var n := |connections| - 1;
    if k < n {
      OutgoingMembers(connections[..n], p, k);
    }
  }

  /** Appending a connection keeps the arena invariant. */
  lemma WithConnectionValid(t: Topology, c: Connection)
    requires t.Valid()
    requires Exists(t.layers, c.source) && Exists(t.layers, c.destination)
    requires c.source.layer < c.destination.layer
    ensures t.WithConnection(c).Valid()
    ensures t.WithConnection(c).connections == t.connections + [c]
  {
    var u := t.WithConnection(c);
    var n := |t.connections|;
    WithConnectionShape(t, c);
    assert u.connections == t.connections + [c];
    forall l | 0 <= l < |u.layers| ensures |u.layers[l]| == |t.layers[l]| {
      assert Widths(u.layers)[l] == Widths(t.layers)[l];
    }
    forall k | 0 <= k < |u.connections|
      ensures Exists(u.layers, u.connections[k].source) && Exists(u.layers, u.connections[k].destination)
      ensures u.connections[k].source.layer < u.connections[k].destination.layer
    {
      if k < n {
        assert u.connections[k] == t.connections[k];
      }
    }
    forall l, i | 0 <= l < |u.layers| && 0 <= i < |u.layers[l]|
      ensures u.layers[l][i].inputs == IncomingIds(u.connections, Position(l, i))
      ensures u.layers[l][i].outputs == OutgoingIds(u.connections, Position(l, i))
    {
      var p := Position(l, i);
      IdsSnoc(t.connections, c, p);
      if p == c.source {
        assert u.layers[l][i] == AddOutput(t.layers[l][i], n);
      } else if p == c.destination {
        assert u.layers[l][i] == AddInput(t.layers[l][i], n);
      } else {
        assert u.layers[l][i] == t.layers[l][i];
      }
    }
  }

  /** Appending a connection changes only its two ends, and each of them only
      by one more id. */
  lemma WithConnectionShape(t: Topology, c: Connection)
    requires Exists(t.layers, c.source) && Exists(t.layers, c.destination)
    requires c.source.layer < c.destination.layer
    ensures var u := t.WithConnection(c);
      && Widths(u.layers) == Widths(t.layers)
      && u.At(c.source) == AddOutput(t.At(c.source), |t.connections|)
      && u.At(c.destination) == AddInput(t.At(c.destination), |t.connections|)
      && (forall l, i :: 0 <= l < |u.layers| && 0 <= i < |u.layers[l]| && Position(l, i) != c.source && Position(l, i) != c.destination ==>
            u.layers[l][i] == t.layers[l][i])
  {
    var u := t.WithConnection(c);
    assert Widths(u.layers) == Widths(t.layers);
  }

  lemma WithConnectionSameValues(t: Topology, c: Connection)
    requires Exists(t.layers, c.source) && Exists(t.layers, c.destination)
    requires c.source.layer < c.destination.layer
    ensures SameValues(t.layers, t.WithConnection(c).layers)
  {
    WithConnectionShape(t, c);
  }

  /** Kept apart from `Link` so that the method's proof stays small. */
  lemma EndsSnoc(connections: seq<Connection>, c: Connection)
    ensures Ends(connections + [c]) == Ends(connections) + [(c.source, c.destination)]
  {
  }

  /** A position outside the arena has no connections. */
  lemma NoIdsOutside(t: Topology, p: Position)
    requires t.Valid() && !Exists(t.layers, p)
    ensures IncomingIds(t.connections, p) == [] && OutgoingIds(t.connections, p) == []
  {
    NoIds(t.connections, p);
  }

  lemma {:induction false} NoIds(connections: seq<Connection>, p: Position)
    requires forall k :: 0 <= k < |connections| ==> connections[k].destination != p && connections[k].source != p
    ensures IncomingIds(connections, p) == [] && OutgoingIds(connections, p) == []
    decreases |connections|
  {
    if connections != [] {
      NoIds(connections[..|connections| - 1], p);
    }
  }

  /** The invariant survives appending a layer of unconnected neurons. */
  lemma ValidAppendLayer(t: Topology, layer: seq<Neuron>)
    requires t.Valid()
    requires forall i :: 0 <= i < |layer| ==> IsFresh(layer[i])
    ensures Topology(t.layers + [layer], t.connections).Valid()
  {
    var u := Topology(t.layers + [layer], t.connections);
    forall l, i | 0 <= l < |u.layers| && 0 <= i < |u.layers[l]|
      ensures u.layers[l][i].inputs == IncomingIds(u.connections, Position(l, i))
      ensures u.layers[l][i].outputs == OutgoingIds(u.connections, Position(l, i))
    {
      if l == |t.layers| {
        NoIdsOutside(t, Position(l, i));
      }
    }
  }

  /** The invariant carries over to an arena with the same widths and the same
      connection lists on every neuron. */
  lemma ValidTransfer(t: Topology, layers: seq<seq<Neuron>>)
    requires t.Valid()
    requires Widths(layers) == Widths(t.layers)
    requires forall l, i :: 0 <= l < |layers| && 0 <= i < |layers[l]| ==>
      layers[l][i].inputs == t.layers[l][i].inputs && layers[l][i].outputs == t.layers[l][i].outputs
    ensures Topology(layers, t.connections).Valid()
  {
    assert |layers| == |t.layers|;
    forall l | 0 <= l < |layers| ensures |layers[l]| == |t.layers[l]| {
      assert Widths(layers)[l] == Widths(t.layers)[l];
    }
  }

  /** Overwriting a weight keeps the ends of every connection. */
  lemma EndsWeightSetAt(outputs: seq<nat>, connections: seq<Connection>, k: nat, weight: real)
    requires InRange(outputs, connections)
    ensures Ends(WeightSetAt(outputs, connections, k, weight)) == Ends(connections)
  {
    var r := WeightSetAt(outputs, connections, k, weight);
    assert forall i :: 0 <= i < |r| ==> Ends(r)[i] == Ends(connections)[i];
  }

  /** The invariant carries over when only weights or learning rates change. */
  lemma ValidReweighted(t: Topology, connections: seq<Connection>)
    requires t.Valid()
    requires Ends(connections) == Ends(t.connections)
    ensures Topology(t.layers, connections).Valid()
  {
    forall k | 0 <= k < |connections|
      ensures connections[k].source == t.connections[k].source && connections[k].destination == t.connections[k].destination
    {
      assert Ends(connections)[k] == Ends(t.connections)[k];
    }
    forall l, i | 0 <= l < |t.layers| && 0 <= i < |t.layers[l]|
      ensures t.layers[l][i].inputs == IncomingIds(connections, Position(l, i))
      ensures t.layers[l][i].outputs == OutgoingIds(connections, Position(l, i))
    {
      IdsFollowEnds(connections, t.connections, Position(l, i));
    }
  }

  /** Idempotence of `connect`: once a connection was made, the same request
      is answered `AlreadyConnected`. */
  lemma ConnectTwice(t: Topology, sourceLayer: nat, sourceIndex: nat, destinationLayer: nat, destinationIndex: nat, c: Connection)
    requires t.Valid()
    requires t.Decide(sourceLayer, sourceIndex, destinationLayer, destinationIndex) == Connected
    requires c.source == Position(sourceLayer, sourceIndex) && c.destination == Position(destinationLayer, destinationIndex)
    ensures t.WithConnection(c).Decide(sourceLayer, sourceIndex, destinationLayer, destinationIndex) == AlreadyConnected
  {
    var u := t.WithConnection(c);
    WithConnectionValid(t, c);
    assert u.connections[|t.connections|] == c;
    assert u.HasConnection(c.source, c.destination);
    assert |u.layers| == |t.layers|;
    assert Widths(u.layers)[sourceLayer] == Widths(t.layers)[sourceLayer];
    assert Widths(u.layers)[destinationLayer] == Widths(t.layers)[destinationLayer];
  }

  /** A valid topology never holds a connection into the input layer, out of
      the last layer, within a layer or backwards. */
  lemma ForwardOnly(t: Topology, k: nat)
    requires t.Valid() && k < |t.connections|
    ensures var c := t.connections[k];
      && c.destination.layer != 0
      && c.source.layer < |t.layers| - 1
      && c.source.layer < c.destination.layer
  {
  }

  // ---------------------------------------------------------------------------
  // The pairs `connectAllLayers` connects

  /** The ends of a connection from neuron i of layer k to neuron j of layer k + 1. */
  function Edge(k: nat, i: nat, j: nat): (Position, Position)
  {
    (Position(k, i), Position(k + 1, j))
  }

  /** The place of pair (i, j) in a block of rows of length m. */
  function Index(i: nat, j: nat, m: nat): nat
  {
    i * m + j
  }

  /** The pairs from neuron i of layer k to the first m neurons of layer k + 1. */
  function Row(k: nat, i: nat, m: nat): (r: seq<(Position, Position)>)
    ensures |r| == m
    ensures forall j :: 0 <= j < m ==> r[j] == Edge(k, i, j)
  {
    seq(m, j requires 0 <= j < m => Edge(k, i, j))
  }

  /** Kept apart from `ConnectRow` so that the method's proof stays small. */
  lemma RowSnoc(k: nat, i: nat, j: nat)
    ensures Row(k, i, j + 1) == Row(k, i, j) + [Edge(k, i, j)]
  {
  }

  /** The pairs from the first n neurons of layer k to m neurons of layer k + 1,
      row by row. */
  function Block(k: nat, n: nat, m: nat): seq<(Position, Position)>
    decreases n
  {
    if n == 0 then [] else Block(k, n - 1, m) + Row(k, n - 1, m)
  }

  /** The pairs for the layer pairs (0, 1), ..., (k - 1, k) of a network whose
      layer widths are w, in the order `connectAllLayers` visits them. */
  function AllPairs(w: seq<nat>, k: nat): seq<(Position, Position)>
    requires k < |w| || k == 0
    decreases k
  {
    if k == 0 then [] else AllPairs(w, k - 1) + Block(k - 1, w[k - 1], w[k])
  }

  /** Sum over j < k of w[j] * w[j + 1]. */
  function SumOfProducts(w: seq<nat>, k: nat): nat
    requires k < |w| || k == 0
    decreases k
  {
    if k == 0 then 0 else SumOfProducts(w, k - 1) + w[k - 1] * w[k]
  }

  lemma MulStep(i: nat, n: nat, m: nat, j: nat)
    requires i < n && j < m
    ensures i * m + j < n * m
  {
    assert (i + 1) * m <= n * m;
  }

  lemma {:induction false} BlockLength(k: nat, n: nat, m: nat)
    ensures |Block(k, n, m)| == n * m
    decreases n
  {
    if n > 0 {
      BlockLength(k, n - 1, m);
      assert n * m == (n - 1) * m + m;
    }
  }

  /** A block holds n * m pairs: entry i * m + j joins neuron i of layer k to
      neuron j of layer k + 1, and every entry is such a pair. */
  lemma {:induction false} BlockShape(k: nat, n: nat, m: nat)
    ensures |Block(k, n, m)| == n * m
    ensures forall i, j :: 0 <= i < n && 0 <= j < m ==> Index(i, j, m) < |Block(k, n, m)| && Block(k, n, m)[Index(i, j, m)] == Edge(k, i, j)
    ensures forall x :: 0 <= x < |Block(k, n, m)| ==>
      Block(k, n, m)[x].0.layer == k && Block(k, n, m)[x].1.layer == k + 1 &&
      Block(k, n, m)[x].0.index < n && Block(k, n, m)[x].1.index < m
    decreases n
  {
    BlockLength(k, n, m);
    if n > 0 {
      BlockShape(k, n - 1, m);
      var b := Block(k, n - 1, m);
      assert |b| == (n - 1) * m;
      forall i, j | 0 <= i < n && 0 <= j < m
        ensures Index(i, j, m) < |Block(k, n, m)| && Block(k, n, m)[Index(i, j, m)] == Edge(k, i, j)
      {
        if i < n - 1 {
          MulStep(i, n - 1, m, j);
        } else {
          assert i * m == (n - 1) * m;
        }
      }
    }
  }

  /** `connectAllLayers` connects w[0]*w[1] + ... + w[k-1]*w[k] pairs. */
  lemma {:induction false} AllPairsCount(w: seq<nat>, k: nat)
    requires k < |w| || k == 0
    ensures |AllPairs(w, k)| == SumOfProducts(w, k)
    decreases k
  {
    if k > 0 {
      AllPairsCount(w, k - 1);
      var b := Block(k - 1, w[k - 1], w[k]);
      BlockLength(k - 1, w[k - 1], w[k]);
      assert AllPairs(w, k) == AllPairs(w, k - 1) + b;
      assert SumOfProducts(w, k) == SumOfProducts(w, k - 1) + |b|;
    }
  }

  /** The number of pairs in ps whose source is on layer l. */
  function CountFrom(ps: seq<(Position, Position)>, l: nat): nat
    decreases |ps|
  {
    if ps == [] then 0
    else CountFrom(ps[..|ps| - 1], l) + (if ps[|ps| - 1].0.layer == l then 1 else 0)
  }

  lemma {:induction false} CountFromAppend(a: seq<(Position, Position)>, b: seq<(Position, Position)>, l: nat)
    ensures CountFrom(a + b, l) == CountFrom(a, l) + CountFrom(b, l)
    decreases |b|
  {
    if b == [] {
      assert a + b == a;
    } else {
      CountFromAppend(a, b[..|b| - 1], l);
      assert (a + b)[..|a + b| - 1] == a + b[..|b| - 1];
    }
  }

  /** When every pair starts on layer k, all of them count for k and none
      for another layer. */
  lemma {:induction false} CountFromUniform(ps: seq<(Position, Position)>, k: nat, l: nat)
    requires forall x :: 0 <= x < |ps| ==> ps[x].0.layer == k
    ensures CountFrom(ps, l) == if l == k then |ps| else 0
    decreases |ps|
  {
    if ps != [] {
      CountFromUniform(ps[..|ps| - 1], k, l);
    }
  }

  /** `connectAllLayers` makes exactly w[l] * w[l + 1] connections leave
      layer l, for every layer l < k that it handles, and none leave the
      others. */
  lemma AllPairsFromLayer(w: seq<nat>, k: nat, l: nat)
    requires k < |w| || k == 0
    ensures CountFrom(AllPairs(w, k), l) == if l < k then w[l] * w[l + 1] else 0
  {
    if l < k {
      AllPairsFromHandled(w, k, l);
    } else {
      AllPairsFromAbove(w, k, l);
    }
  }

  /** No pair of the first k layer pairs leaves a layer l >= k. */
  lemma {:induction false} AllPairsFromAbove(w: seq<nat>, k: nat, l: nat)
    requires k < |w| || k == 0
    requires k <= l
    ensures CountFrom(AllPairs(w, k), l) == 0
    decreases k
  {
    if k > 0 {
      AllPairsFromAbove(w, k - 1, l);
      CountFromAppend(AllPairs(w, k - 1), Block(k - 1, w[k - 1], w[k]), l);
      BlockFromLayer(k - 1, w[k - 1], w[k], l);
    }
  }

  /** A handled layer l < k has w[l] * w[l + 1] pairs leaving it. */
  lemma {:induction false} AllPairsFromHandled(w: seq<nat>, k: nat, l: nat)
    requires k < |w|
    requires l < k
    ensures CountFrom(AllPairs(w, k), l) == w[l] * w[l + 1]
    decreases k
  {
    var a := AllPairs(w, k - 1);
    var b := Block(k - 1, w[k - 1], w[k]);
    CountFromAppend(a, b, l);
    BlockFromLayer(k - 1, w[k - 1], w[k], l);
    if l + 1 == k {
      AllPairsFromAbove(w, l, l);
      assert CountFrom(b, l) == w[l] * w[l + 1];
    } else {
      AllPairsFromHandled(w, k - 1, l);
      assert CountFrom(b, l) == 0;
    }
  }

  /** A block of layer k has n * m pairs leaving layer k and none leaving
      any other layer. */
  lemma {:induction false} BlockFromLayer(k: nat, n: nat, m: nat, l: nat)
    ensures CountFrom(Block(k, n, m), l) == if l == k then n * m else 0
    decreases n
  {
    if n > 0 {
      var r := Row(k, n - 1, m);
      BlockFromLayer(k, n - 1, m, l);
      CountFromAppend(Block(k, n - 1, m), r, l);
      CountFromUniform(r, k, l);
      if l == k {
        assert n * m == (n - 1) * m + m;
      }
    }
  }

  /** The pair goes from an existing neuron of a layer l < k to an existing
      neuron of layer l + 1, in a network of widths w. */
  predicate Adjacent(p: (Position, Position), w: seq<nat>, k: nat)
    requires k < |w| || k == 0
  {
    p.0.layer < k && p.1.layer == p.0.layer + 1 && p.0.index < w[p.0.layer] && p.1.index < w[p.1.layer]
  }

  /** Every pair `connectAllLayers` connects goes from an existing neuron of some
      layer l < k to an existing neuron of layer l + 1. */
  lemma {:induction false} AllPairsAdjacent(w: seq<nat>, k: nat)
    requires k < |w| || k == 0
    ensures forall x :: 0 <= x < |AllPairs(w, k)| ==> Adjacent(AllPairs(w, k)[x], w, k)
    decreases k
  {
    if k > 0 {
      AllPairsAdjacent(w, k - 1);
      BlockShape(k - 1, w[k - 1], w[k]);
      var a := AllPairs(w, k - 1);
      var b := Block(k - 1, w[k - 1], w[k]);
      forall x | 0 <= x < |a + b|
        ensures Adjacent((a + b)[x], w, k)
      {
        if x < |a| {
          assert (a + b)[x] == a[x];
        } else {
          assert (a + b)[x] == b[x - |a|];
        }
      }
    }
  }

  /** Every neuron of a layer l < k is paired with every neuron of layer l + 1. */
  lemma {:induction false} AllPairsComplete(w: seq<nat>, k: nat)
    requires k < |w| || k == 0
    ensures forall l, i, j :: 0 <= l < k && 0 <= i < w[l] && 0 <= j < w[l + 1] ==> Edge(l, i, j) in AllPairs(w, k)
    decreases k
  {
    if k > 0 {
      AllPairsComplete(w, k - 1);
      BlockShape(k - 1, w[k - 1], w[k]);
      var a := AllPairs(w, k - 1);
      var b := Block(k - 1, w[k - 1], w[k]);
      forall l, i, j | 0 <= l < k && 0 <= i < w[l] && 0 <= j < w[l + 1]
        ensures Edge(l, i, j) in a + b
      {
        if l == k - 1 {
          assert b[Index(i, j, w[k])] == Edge(l, i, j);
        } else {
          assert Edge(l, i, j) in a;
        }
      }
    }
  }

  lemma Concat3<T>(a: seq<T>, b: seq<T>, c: seq<T>)
    ensures (a + b) + c == a + (b + c)
  {
  }

  /** c1 keeps all of c0 and adds only connections with the default learning
      rate and a weight in [-0.5, 0.5]. */
  ghost predicate Extends(c0: seq<Connection>, c1: seq<Connection>)
  {
    && |c1| >= |c0| && c1[..|c0|] == c0
    && forall x :: |c0| <= x < |c1| ==> c1[x].learningRate == DefaultLearningRate && -0.5 <= c1[x].weight <= 0.5
  }

  lemma ExtendsTrans(c0: seq<Connection>, c1: seq<Connection>, c2: seq<Connection>)
    requires Extends(c0, c1) && Extends(c1, c2)
    ensures Extends(c0, c2)
  {
    assert c2[..|c0|] == c2[..|c1|][..|c0|];
  }

  /** b has the shape of a and its neurons differ from a's at most in their
      connection lists. */
  ghost predicate SameValues(a: seq<seq<Neuron>>, b: seq<seq<Neuron>>)
  {
    && Widths(a) == Widths(b)
    && forall l, i :: 0 <= l < |b| && 0 <= i < |b[l]| ==> b[l][i] == a[l][i].(inputs := b[l][i].inputs, outputs := b[l][i].outputs)
  }

  lemma SameValuesTrans(a: seq<seq<Neuron>>, b: seq<seq<Neuron>>, c: seq<seq<Neuron>>)
    requires SameValues(a, b) && SameValues(b, c)
    ensures SameValues(a, c)
  {
    forall l | 0 <= l < |c| ensures |a[l]| == |b[l]| == |c[l]| {
      assert Widths(a)[l] == Widths(b)[l] == Widths(c)[l];
    }
  }

  // ---------------------------------------------------------------------------
  // The forward pass

  /** Both arenas have the same shape and every neuron the same connection
      lists. */
  ghost predicate SameLists(a: seq<seq<Neuron>>, b: seq<seq<Neuron>>)
  {
    && Widths(a) == Widths(b)
    && forall l, i :: 0 <= l < |b| && 0 <= i < |b[l]| ==> b[l][i].inputs == a[l][i].inputs && b[l][i].outputs == a[l][i].outputs
  }

  lemma SameListsValid(t: Topology, layers: seq<seq<Neuron>>)
    requires t.Valid() && SameLists(t.layers, layers)
    ensures Topology(layers, t.connections).Valid()
  {
    ValidTransfer(t, layers);
  }

  /** In a valid topology every incoming connection of a neuron on layer l
      comes from an existing neuron of a lower layer. */
  lemma FedFromBelow(t: Topology, l: nat, i: nat)
    requires t.Valid() && l < |t.layers| && i < |t.layers[l]|
    ensures Resolvable(t.layers[l][i].inputs, t.connections, t.layers)
    ensures forall k :: 0 <= k < |t.layers[l][i].inputs| ==> t.connections[t.layers[l][i].inputs[k]].source.layer < l
  {
  }

  lemma ResolvableWidths(ids: seq<nat>, connections: seq<Connection>, a: seq<seq<Neuron>>, b: seq<seq<Neuron>>)
    requires Resolvable(ids, connections, a) && Widths(a) == Widths(b)
    ensures Resolvable(ids, connections, b)
  {
    forall k | 0 <= k < |ids| ensures Exists(b, connections[ids[k]].source) {
      var s := connections[ids[k]].source;
      assert Widths(a)[s.layer] == Widths(b)[s.layer];
    }
  }

  /** The net value only depends on the layers the sources are on. */
  lemma {:induction false} NetInputAgree(ids: seq<nat>, connections: seq<Connection>, a: seq<seq<Neuron>>, b: seq<seq<Neuron>>, l: nat)
    requires Resolvable(ids, connections, a) && Resolvable(ids, connections, b)
    requires forall k :: 0 <= k < |ids| ==> connections[ids[k]].source.layer < l
    requires l <= |a| && l <= |b| && forall j :: 0 <= j < l ==> a[j] == b[j]
    ensures NetInput(ids, connections, a) == NetInput(ids, connections, b)
    decreases |ids|
  {
    if ids != [] {
      var n := |ids| - 1;
      var front := ids[..n];
      assert forall k :: 0 <= k < |front| ==> front[k] == ids[k];
      NetInputAgree(front, connections, a, b, l);
      var s := connections[ids[n]].source;
      assert a[s.layer] == b[s.layer];
    }
  }

  /** Neuron (l, i) of `after` is what `compute` makes of neuron (l, i) of
      `before`, with the output values of `after` as its inputs. */
  ghost predicate Settled(before: seq<seq<Neuron>>, after: seq<seq<Neuron>>, connections: seq<Connection>, activation: real -> real, l: nat, i: nat)
  {
    && l < |before| && l < |after| && i < |before[l]| && i < |after[l]|
    && Resolvable(before[l][i].inputs, connections, after)
    && after[l][i] == Computed(before[l][i], connections, after, activation)
  }

  /** Agreeing tails: every layer but the first is the same. */
  lemma TailsAgree(a: seq<seq<Neuron>>, b: seq<seq<Neuron>>)
    requires |a| == |b| && (a == b || (|a| > 0 && a[1..] == b[1..]))
    ensures forall l :: 1 <= l < |a| ==> a[l] == b[l]
  {
    forall l | 1 <= l < |a| ensures a[l] == b[l] {
      if a != b {
        assert a[l] == a[1..][l - 1];
      }
    }
  }

  /** Being settled only looks at the neurons before the pass on layers 1 and
      up, so two starting points that agree there settle the same. */
  lemma SettledFrom(a: seq<seq<Neuron>>, b: seq<seq<Neuron>>, after: seq<seq<Neuron>>, connections: seq<Connection>, activation: real -> real)
    requires |a| == |b| && forall l :: 1 <= l < |a| ==> a[l] == b[l]
    requires forall l, i :: 1 <= l < |after| && 0 <= i < |after[l]| ==> Settled(b, after, connections, activation, l, i)
    ensures forall l, i :: 1 <= l < |after| && 0 <= i < |after[l]| ==> Settled(a, after, connections, activation, l, i)
  {
    forall l, i | 1 <= l < |after| && 0 <= i < |after[l]|
      ensures Settled(a, after, connections, activation, l, i)
    {
      assert Settled(b, after, connections, activation, l, i);
      assert a[l] == b[l];
    }
  }

  /** (l1, i1) comes before (l2, i2) in the order `computeOutputs` visits neurons. */
  predicate Before(l1: nat, i1: nat, l2: nat, i2: nat)
  {
    l1 < l2 || (l1 == l2 && i1 < i2)
  }

  /** Computing neuron (l, i) in place keeps every neuron computed before it
      settled, and settles (l, i): a neuron's sources lie on lower layers,
      which are final. */
  lemma SettleStep(t: Topology, current: seq<seq<Neuron>>, activation: real -> real, l: nat, i: nat)
    requires t.Valid() && Widths(current) == Widths(t.layers)
    requires 1 <= l < |current| && i < |current[l]| && current[l][i] == t.layers[l][i]
    requires forall l2: nat, i2: nat :: 1 <= l2 && Before(l2, i2, l, i) && l2 < |current| && i2 < |current[l2]| ==>
      Settled(t.layers, current, t.connections, activation, l2, i2)
    ensures Resolvable(t.layers[l][i].inputs, t.connections, current)
    ensures var next := current[l := current[l][i := Computed(t.layers[l][i], t.connections, current, activation)]];
      && Widths(next) == Widths(current)
      && forall l2: nat, i2: nat :: 1 <= l2 && Before(l2, i2, l, i + 1) && l2 < |next| && i2 < |next[l2]| ==>
        Settled(t.layers, next, t.connections, activation, l2, i2)
  {
    FedFromBelow(t, l, i);
    ResolvableWidths(t.layers[l][i].inputs, t.connections, t.layers, current);
    var m := Computed(t.layers[l][i], t.connections, current, activation);
    var next := current[l := current[l][i := m]];
    assert Widths(next) == Widths(current);
    forall l2: nat, i2: nat | 1 <= l2 && Before(l2, i2, l, i + 1) && l2 < |next| && i2 < |next[l2]|
      ensures Settled(t.layers, next, t.connections, activation, l2, i2)
    {
      assert Widths(next)[l2] == Widths(t.layers)[l2];
      var ids := t.layers[l2][i2].inputs;
      FedFromBelow(t, l2, i2);
      ResolvableWidths(ids, t.connections, t.layers, current);
      ResolvableWidths(ids, t.connections, t.layers, next);
      NetInputAgree(ids, t.connections, current, next, l2);
      var before := t.layers[l2][i2];
      assert Computed(before, t.connections, current, activation) == Computed(before, t.connections, next, activation);
      if l2 != l || i2 != i {
        assert Settled(t.layers, current, t.connections, activation, l2, i2);
        assert next[l2][i2] == current[l2][i2];
      }
    }
  }

  /** The state `computeOutputs` leaves is determined: two arenas that keep the
      input layer and are settled everywhere above it are equal. */
  lemma SettledUnique(t: Topology, a: seq<seq<Neuron>>, b: seq<seq<Neuron>>, activation: real -> real)
    requires t.Valid() && |t.layers| > 0
    requires Widths(a) == Widths(t.layers) && Widths(b) == Widths(t.layers)
    requires a[0] == t.layers[0] && b[0] == t.layers[0]
    requires forall l, i :: 1 <= l < |a| && 0 <= i < |a[l]| ==> Settled(t.layers, a, t.connections, activation, l, i)
    requires forall l, i :: 1 <= l < |b| && 0 <= i < |b[l]| ==> Settled(t.layers, b, t.connections, activation, l, i)
    ensures a == b
  {
    AgreeBelow(t, a, b, activation, |a|);
  }

  lemma {:induction false} AgreeBelow(t: Topology, a: seq<seq<Neuron>>, b: seq<seq<Neuron>>, activation: real -> real, n: nat)
    requires t.Valid() && |t.layers| > 0
    requires Widths(a) == Widths(t.layers) && Widths(b) == Widths(t.layers)
    requires a[0] == t.layers[0] && b[0] == t.layers[0]
    requires forall l, i :: 1 <= l < |a| && 0 <= i < |a[l]| ==> Settled(t.layers, a, t.connections, activation, l, i)
    requires forall l, i :: 1 <= l < |b| && 0 <= i < |b[l]| ==> Settled(t.layers, b, t.connections, activation, l, i)
    requires n <= |a|
    ensures forall l :: 0 <= l < n ==> a[l] == b[l]
    ensures n == |a| ==> a == b
    decreases n
  {
    if n > 1 {
      var l := n - 1;
      AgreeBelow(t, a, b, activation, l);
      assert Widths(a)[l] == Widths(b)[l];
      forall i | 0 <= i < |a[l]| ensures a[l][i] == b[l][i] {
        assert Settled(t.layers, a, t.connections, activation, l, i);
        assert Settled(t.layers, b, t.connections, activation, l, i);
        FedFromBelow(t, l, i);
        NetInputAgree(t.layers[l][i].inputs, t.connections, a, b, l);
      }
    }
    if n == |a| {
      assert |a| == |b|;
      assert forall l :: 0 <= l < |a| ==> a[l] == b[l];
    }
  }

  // ---------------------------------------------------------------------------

  class NeuralNetwork {
    var layers: seq<seq<Neuron>>
    var connections: seq<Connection>
    var learningSet: seq<LearningPoint>

    function Topo(): Topology
      reads this
    {
      Topology(layers, connections)
    }

    ghost predicate Valid()
      reads this
    {
      Topo().Valid()
    }

    /** An empty network (the random generator seeding is not modelled). */
    constructor ()
      ensures Valid()
      ensures layers == [] && connections == [] && learningSet == []
    {
      layers := [];
      connections := [];
      learningSet := [];
    }

    /** `addLayer`: appends one layer of `numberOfNeurons` fresh neurons. */
    method AddLayer(numberOfNeurons: nat)
      requires Valid()
      modifies this
      ensures Valid()
      ensures |layers| == |old(layers)| + 1 && layers[..|old(layers)|] == old(layers)
      ensures |layers[|old(layers)|]| == numberOfNeurons
      ensures forall i :: 0 <= i < numberOfNeurons ==> IsFresh(layers[|old(layers)|][i])
      ensures connections == old(connections) && learningSet == old(learningSet)
    {
      var layer: seq<Neuron> := [];
      var i := 0;
      while i < numberOfNeurons
        invariant 0 <= i <= numberOfNeurons
        invariant |layer| == i
        invariant forall j :: 0 <= j < i ==> IsFresh(layer[j])
      {
        var desired: real :| true;
        layer := layer + [NewNeuron(desired)];
        i := i + 1;
      }
      ValidAppendLayer(Topo(), layer);
      layers := layers + [layer];
    }

    /** `connectionExists`: asks the source neuron whether one of its outgoing
        connections leads to the destination. The source neuron must exist
        (the C++ code dereferences its pointer). */
    method ConnectionExists(sourceLayer: Unsigned, sourceIndex: Unsigned, destinationLayer: Unsigned, destinationIndex: Unsigned)
      returns (result: bool)
      requires Valid()
      requires Exists(layers, Position(sourceLayer, sourceIndex))
      ensures result == Topo().HasConnection(Position(sourceLayer, sourceIndex), Position(destinationLayer, destinationIndex))
    {
      var src := Position(sourceLayer, sourceIndex);
      var dst := Position(destinationLayer, destinationIndex);
      var n := layers[sourceLayer][sourceIndex];
      assert n.outputs == OutgoingIds(connections, src);
      result := ConnectedToDestination(n, connections, dst);
      if Topo().HasConnection(src, dst) {
        var k :| 0 <= k < |connections| && connections[k].source == src && connections[k].destination == dst;
        OutgoingMembers(connections, src, k);
      }
    }

    /** `connect(Neuron *, Neuron *)`: creates a connection with a weight
        drawn from [-0.5, 0.5] and the default learning rate, and registers it
        with both neurons and the network. Its callers only pass existing
        neurons with the destination on a higher layer. */
    method Link(source: Position, destination: Position)
      requires Valid()
      requires Exists(layers, source) && Exists(layers, destination)
      requires source.layer < destination.layer
      modifies this
      ensures Valid()
      ensures |connections| == |old(connections)| + 1
      ensures var c := connections[|old(connections)|];
        && c.source == source && c.destination == destination
        && c.learningRate == DefaultLearningRate && -0.5 <= c.weight <= 0.5
        && Topo() == old(Topo()).WithConnection(c)
      ensures SameValues(old(layers), layers)
      ensures Extends(old(connections), connections)
      ensures Ends(connections) == Ends(old(connections)) + [(source, destination)]
      ensures learningSet == old(learningSet)
    {
      var weight: real :| -0.5 <= weight <= 0.5;
      var c := Connection(source, destination, weight, DefaultLearningRate);
      WithConnectionValid(Topo(), c);
      WithConnectionSameValues(Topo(), c);
      EndsSnoc(connections, c);
      var id := |connections|;
      layers := layers[source.layer := layers[source.layer][source.index := AddOutput(layers[source.layer][source.index], id)]];
      layers := layers[destination.layer := layers[destination.layer][destination.index := AddInput(layers[destination.layer][destination.index], id)]];
      connections := connections + [c];
    }

    /** `connect(sourceLayer, sourceIndex, destinationLayer, destinationIndex)`:
        the validated connect. A rejected request changes nothing; an
        accepted one appends exactly one connection. */
    method Connect(sourceLayer: Unsigned, sourceIndex: Unsigned, destinationLayer: Unsigned, destinationIndex: Unsigned)
      returns (status: ConnectStatus)
      requires Valid()
      modifies this
      ensures Valid()
      ensures status == old(Topo()).Decide(sourceLayer, sourceIndex, destinationLayer, destinationIndex)
      ensures status != Connected ==> Topo() == old(Topo())
      ensures status == Connected ==>
        && |connections| == |old(connections)| + 1
        && var c := connections[|old(connections)|];
        && c.source == Position(sourceLayer, sourceIndex)
        && c.destination == Position(destinationLayer, destinationIndex)
        && c.learningRate == DefaultLearningRate && -0.5 <= c.weight <= 0.5
        && Topo() == old(Topo()).WithConnection(c)
      ensures learningSet == old(learningSet)
    {
      if destinationLayer == 0 {
        return DestinationIsInput;
      }
      if sourceLayer == Topo().LastLayer() {
        return SourceIsOutput;
      }
      if sourceLayer == destinationLayer {
        return SameLayer;
      }
      if destinationLayer < sourceLayer {
        return DestinationBelowSource;
      }
      if !Topo().NeuronExists(sourceLayer, sourceIndex) {
        return NoSuchSource;
      }
      if !Topo().NeuronExists(destinationLayer, destinationIndex) {
        return NoSuchDestination;
      }
      var found := ConnectionExists(sourceLayer, sourceIndex, destinationLayer, destinationIndex);
      if found {
        return AlreadyConnected;
      }
      Link(Position(sourceLayer, sourceIndex), Position(destinationLayer, destinationIndex));
      status := Connected;
    }

    /** `setConnectionWeight`: when a connection from the source to the
        destination exists, the first one in the source's outgoing list gets
        the new weight; otherwise nothing changes. */
    method SetConnectionWeight(sourceLayer: Unsigned, sourceIndex: Unsigned, destinationLayer: Unsigned, destinationIndex: Unsigned, weight: real)
      requires Valid()
      requires Exists(layers, Position(sourceLayer, sourceIndex))
      modifies this
      ensures Valid()
      ensures layers == old(layers) && learningSet == old(learningSet)
      ensures connections == old(Topo()).Reweighted(Position(sourceLayer, sourceIndex), Position(destinationLayer, destinationIndex), weight)
    {
      var src := Position(sourceLayer, sourceIndex);
      var dst := Position(destinationLayer, destinationIndex);
      var found := ConnectionExists(sourceLayer, sourceIndex, destinationLayer, destinationIndex);
      var n := layers[sourceLayer][sourceIndex];
      ghost var k := FirstTo(n.outputs, connections, dst);
      if !found {
        assert forall j :: 0 <= j < |n.outputs| ==> connections[n.outputs[j]].destination != dst;
        return;
      }
      var updated := Neurons.SetConnectionWeight(n, connections, dst, weight);
      EndsWeightSetAt(n.outputs, connections, k, weight);
      ValidReweighted(Topo(), updated);
      connections := updated;
    }

    /** `connectAllLayers`: for every layer but the last, connects each of its
        neurons to every neuron of the next layer, through the unchecked
        connect, so nothing stops a second call from duplicating connections.
        With no layer at all the C++ code steps before the beginning of the
        layer list, so one layer is required. */
    method ConnectAllLayers()
      requires Valid()
      requires |layers| >= 1
      modifies this
      ensures Valid()
      ensures SameValues(old(layers), layers)
      ensures Extends(old(connections), connections)
      ensures Ends(connections) == Ends(old(connections)) + AllPairs(Widths(old(layers)), |old(layers)| - 1)
      ensures learningSet == old(learningSet)
    {
      ghost var w := Widths(layers);
      ghost var l0 := layers;
      ghost var c0 := connections;
      assert ConnectedUpTo(0, w, l0, c0) by {
        assert c0[..|c0|] == c0;
        assert Ends(c0) + AllPairs(w, 0) == Ends(c0);
      }
      var k := 0;
      while k < |layers| - 1
        invariant 0 <= k <= |w| - 1
        invariant ConnectedUpTo(k, w, l0, c0)
        invariant learningSet == old(learningSet)
      {
        ConnectLayerAfter(k, w, l0, c0);
        k := k + 1;
      }
    }

    /** The state after the first k turns of the outer loop of
        `connectAllLayers`, started from layers l0 and connections c0 of
        widths w: every neuron of layers 0..k - 1 is connected to every neuron
        of the next layer, in order, and nothing else has changed. */
    ghost predicate ConnectedUpTo(k: nat, w: seq<nat>, l0: seq<seq<Neuron>>, c0: seq<Connection>)
      reads this
    {
      && (k < |w| || k == 0)
      && Valid()
      && Widths(layers) == w
      && SameValues(l0, layers)
      && Extends(c0, connections)
      && Ends(connections) == Ends(c0) + AllPairs(w, k)
    }

    /** One turn of the outer loop of `connectAllLayers`: afterwards layer k
        is done as well. */
    method ConnectLayerAfter(k: nat, ghost w: seq<nat>, ghost l0: seq<seq<Neuron>>, ghost c0: seq<Connection>)
      requires ConnectedUpTo(k, w, l0, c0) && k + 1 < |w|
      modifies this
      ensures ConnectedUpTo(k + 1, w, l0, c0)
      ensures learningSet == old(learningSet)
    {
      ghost var l1 := layers;
      ghost var c1 := connections;
      ConnectLayer(k, w);
      Concat3(Ends(c0), AllPairs(w, k), Block(k, w[k], w[k + 1]));
      SameValuesTrans(l0, l1, layers);
      ExtendsTrans(c0, c1, connections);
    }

    /** The middle loop of `connectAllLayers`: every neuron of layer k to every
        neuron of layer k + 1. */
    method ConnectLayer(k: nat, ghost w: seq<nat>)
      requires Valid()
      requires Widths(layers) == w && k + 1 < |layers|
      modifies this
      ensures Valid()
      ensures Widths(layers) == w
      ensures SameValues(old(layers), layers)
      ensures Extends(old(connections), connections)
      ensures Ends(connections) == Ends(old(connections)) + Block(k, w[k], w[k + 1])
      ensures learningSet == old(learningSet)
    {
      var i := 0;
      while i < |layers[k]|
        invariant 0 <= i <= w[k]
        invariant Valid()
        invariant Widths(layers) == w
        invariant SameValues(old(layers), layers)
        invariant Extends(old(connections), connections)
        invariant Ends(connections) == Ends(old(connections)) + Block(k, i, w[k + 1])
        invariant learningSet == old(learningSet)
      {
        ghost var l0 := layers;
        ghost var c0 := connections;
        assert Widths(layers)[k] == w[k];
        ConnectRow(k, i, w);
        Concat3(Ends(old(connections)), Block(k, i, w[k + 1]), Row(k, i, w[k + 1]));
        SameValuesTrans(old(layers), l0, layers);
        ExtendsTrans(old(connections), c0, connections);
        i := i + 1;
      }
      assert Widths(layers)[k] == w[k];
    }

    /** The inner loop of `connectAllLayers`: neuron i of layer k to every
        neuron of layer k + 1. */
    method ConnectRow(k: nat, i: nat, ghost w: seq<nat>)
      requires Valid()
      requires Widths(layers) == w && k + 1 < |layers| && i < |layers[k]|
      modifies this
      ensures Valid()
      ensures Widths(layers) == w
      ensures SameValues(old(layers), layers)
      ensures Extends(old(connections), connections)
      ensures Ends(connections) == Ends(old(connections)) + Row(k, i, w[k + 1])
      ensures learningSet == old(learningSet)
    {
      var j := 0;
      while j < |layers[k + 1]|
        invariant 0 <= j <= w[k + 1]
        invariant Valid()
        invariant Widths(layers) == w
        invariant SameValues(old(layers), layers)
        invariant Extends(old(connections), connections)
        invariant Ends(connections) == Ends(old(connections)) + Row(k, i, j)
        invariant learningSet == old(learningSet)
      {
        ghost var l0 := layers;
        ghost var c0 := connections;
        LinkStep(k, i, j, w);
        RowSnoc(k, i, j);
        Concat3(Ends(old(connections)), Row(k, i, j), [Edge(k, i, j)]);
        SameValuesTrans(old(layers), l0, layers);
        ExtendsTrans(old(connections), c0, connections);
        j := j + 1;
      }
      assert Widths(layers)[k + 1] == w[k + 1];
    }

    /** One connection made by the inner loop of `connectAllLayers`. */
    method LinkStep(k: nat, i: nat, j: nat, ghost w: seq<nat>)
      requires Valid()
      requires Widths(layers) == w && k + 1 < |layers| && i < |layers[k]| && j < |layers[k + 1]|
      modifies this
      ensures Valid()
      ensures Widths(layers) == w
      ensures SameValues(old(layers), layers)
      ensures Extends(old(connections), connections)
      ensures Ends(connections) == Ends(old(connections)) + [Edge(k, i, j)]
      ensures learningSet == old(learningSet)
    {
      Link(Position(k, i), Position(k + 1, j));
    }

    /** `addLearningPoint`: the point is appended when its input vector is as
        wide as the first layer and its output vector as wide as the last
        layer; it is dropped, with an error report, otherwise. */
    method AddLearningPoint(inputs: LearningVector, outputs: LearningVector)
      modifies this`learningSet
      ensures Topo().Fits(inputs, outputs) ==> learningSet == old(learningSet) + [LearningPoint(inputs, outputs)]
      ensures !Topo().Fits(inputs, outputs) ==> learningSet == old(learningSet)
    {
      if Topo().NumberOfNeuronsOnLayer(0) != |inputs| {
        return;
      }
      if Topo().NumberOfNeuronsOnLayer(Topo().LastLayer()) != |outputs| {
        return;
      }
      learningSet := learningSet + [LearningPoint(inputs, outputs)];
    }

    /** `clearLearningSet`. */
    method ClearLearningSet()
      modifies this`learningSet
      ensures learningSet == []
    {
      learningSet := [];
    }

    /** `appendLearningSet`: despite its name it inserts the given points at
        the front of the learning set. */
    method AppendLearningSet(points: seq<LearningPoint>)
      modifies this`learningSet
      ensures learningSet == points + old(learningSet)
    {
      learningSet := points + learningSet;
    }

    /** `setLearningRate`: every connection gets the new learning rate and
        keeps its ends and weight. */
    method SetLearningRate(rate: real)
      requires Valid()
      modifies this`connections
      ensures Valid()
      ensures |connections| == |old(connections)|
      ensures forall k :: 0 <= k < |connections| ==> connections[k] == old(connections)[k].(learningRate := rate)
    {
      ghost var t := Topo();
      var k := 0;
      while k < |connections|
        invariant 0 <= k <= |connections| == |t.connections|
        invariant forall x :: 0 <= x < k ==> connections[x] == t.connections[x].(learningRate := rate)
        invariant forall x :: k <= x < |connections| ==> connections[x] == t.connections[x]
      {
        connections := connections[k := connections[k].(learningRate := rate)];
        k := k + 1;
      }
      assert Ends(connections) == Ends(t.connections);
      ValidReweighted(t, connections);
    }

    /** `setBiasNeurons`: every neuron strictly between the first and the last
        layer that has no incoming connection (a bias neuron) gets the output
        value `value`; nothing else changes. The C++ loop starts at the second
        layer and stops at the last one; with a single layer it starts at the
        end of the layer list, never meets its stop and dereferences the end,
        so at least two layers are required. */
    method SetBiasNeurons(value: real)
      requires Valid()
      requires |layers| >= 2
      modifies this`layers
      ensures Valid()
      ensures Widths(layers) == Widths(old(layers))
      ensures forall l, i :: 0 <= l < |layers| && 0 <= i < |layers[l]| ==>
        layers[l][i] == (if RoleOf(l, |layers|, NumberOfInputs(old(layers)[l][i])) == Bias then old(layers)[l][i].(outputValue := value) else old(layers)[l][i])
    {
      ghost var t := Topo();
      var l := 1;
      while l < |layers| - 1
        invariant 1 <= l <= |layers| - 1
        invariant Widths(layers) == Widths(t.layers)
        invariant forall l2, i :: 0 <= l2 < |layers| && 0 <= i < |layers[l2]| ==>
          layers[l2][i] == (if 0 < l2 < l && NumberOfInputs(t.layers[l2][i]) == 0 then t.layers[l2][i].(outputValue := value) else t.layers[l2][i])
      {
        SetBiasOnLayer(l, value, t.layers);
        l := l + 1;
      }
      SameListsValid(t, layers);
    }

    /** The inner loop of `setBiasNeurons`: the neurons of layer l without
        incoming connections get the output value `value`. */
    method SetBiasOnLayer(l: nat, value: real, ghost before: seq<seq<Neuron>>)
      requires 1 <= l < |layers| - 1
      requires Widths(layers) == Widths(before)
      requires forall l2, i :: 0 <= l2 < |layers| && 0 <= i < |layers[l2]| ==>
        layers[l2][i] == (if 0 < l2 < l && NumberOfInputs(before[l2][i]) == 0 then before[l2][i].(outputValue := value) else before[l2][i])
      modifies this`layers
      ensures Widths(layers) == Widths(before)
      ensures forall l2, i :: 0 <= l2 < |layers| && 0 <= i < |layers[l2]| ==>
        layers[l2][i] == (if 0 < l2 <= l && NumberOfInputs(before[l2][i]) == 0 then before[l2][i].(outputValue := value) else before[l2][i])
    {
      assert Widths(layers)[l] == Widths(before)[l];
      var layer := layers[l];
      var i := 0;
      while i < |layer|
        invariant 0 <= i <= |layer| == |before[l]|
        invariant forall j :: 0 <= j < |layer| ==>
          layer[j] == (if j < i && NumberOfInputs(before[l][j]) == 0 then before[l][j].(outputValue := value) else before[l][j])
      {
        var n := layer[i];
        if NumberOfInputs(n) == 0 {
          layer := layer[i := SetOutputValue(n, RoleOf(l, |layers|, NumberOfInputs(n)), value)];
        }
        i := i + 1;
      }
      layers := layers[l := layer];
      assert Widths(layers) == Widths(before);
    }

    /** `setInputs`: when the vector is as wide as the first layer, input
        neuron i takes value i as its output value; otherwise nothing changes
        (and an error is reported). With no layer at all and an empty vector
        the C++ code dereferences a missing first layer. */
    method SetInputs(values: LearningVector)
      requires Valid()
      requires |layers| > 0 || |values| != 0
      modifies this`layers
      ensures Valid()
      ensures Widths(layers) == Widths(old(layers))
      ensures |values| != Topo().NumberOfNeuronsOnLayer(0) ==> layers == old(layers)
      ensures |values| == Topo().NumberOfNeuronsOnLayer(0) ==>
        && layers[1..] == old(layers)[1..]
        && forall i :: 0 <= i < |layers[0]| ==> layers[0][i] == old(layers)[0][i].(outputValue := values[i])
    {
      if Topo().NumberOfNeuronsOnLayer(0) != |values| {
        return;
      }
      ghost var t := Topo();
      var layer := layers[0];
      var i := 0;
      while i < |layer|
        invariant 0 <= i <= |layer| == |values| == |t.layers[0]|
        invariant forall j :: 0 <= j < |layer| ==> layer[j] == (if j < i then t.layers[0][j].(outputValue := values[j]) else t.layers[0][j])
      {
        layer := layer[i := SetOutputValue(layer[i], RoleOf(0, |layers|, NumberOfInputs(layer[i])), values[i])];
        i := i + 1;
      }
      layers := layers[0 := layer];
      assert Widths(layers) == Widths(t.layers);
      SameListsValid(t, layers);
    }

    /** `setDesiredOutputs`: when the vector is as wide as the last layer,
        neuron i of the last layer takes value i as its desired output, which
        an output neuron accepts; a network of one layer has no output neuron,
        so nothing changes then. */
    method SetDesiredOutputs(values: LearningVector)
      requires Valid()
      requires |layers| > 0 || |values| != 0
      modifies this`layers
      ensures Valid()
      ensures Widths(layers) == Widths(old(layers))
      ensures |values| != Topo().NumberOfNeuronsOnLayer(Topo().LastLayer()) || |layers| == 1 ==> layers == old(layers)
      ensures |values| == Topo().NumberOfNeuronsOnLayer(Topo().LastLayer()) && |layers| > 1 ==>
        && layers[..|layers| - 1] == old(layers)[..|layers| - 1]
        && forall i :: 0 <= i < |layers[|layers| - 1]| ==>
          layers[|layers| - 1][i] == old(layers)[|layers| - 1][i].(desiredOutput := values[i])
    {
      if Topo().NumberOfNeuronsOnLayer(Topo().LastLayer()) != |values| {
        return;
      }
      ghost var t := Topo();
      var last := |layers| - 1;
      var layer := layers[last];
      var i := 0;
      while i < |layer|
        invariant 0 <= i <= |layer| == |values| == |t.layers[last]|
        invariant forall j :: 0 <= j < |layer| ==>
          layer[j] == (if j < i && last > 0 then t.layers[last][j].(desiredOutput := values[j]) else t.layers[last][j])
      {
        layer := layer[i := SetDesiredOutputValue(layer[i], RoleOf(last, |layers|, NumberOfInputs(layer[i])), values[i])];
        i := i + 1;
      }
      if last == 0 {
        assert layer == t.layers[last];
      }
      layers := layers[last := layer];
      assert Widths(layers) == Widths(t.layers);
      SameListsValid(t, layers);
    }

    /** `computeOutputs`: computes every neuron from the second layer to the
        last, layer by layer. Since connections only go to higher layers, each
        neuron ends up computed from the final output values of its sources.
        Each layer is computed in index order (by SettledUnique the settled
        state is unique); a neuron without incoming connections (a bias
        neuron) is left alone. With no layer at all the C++ code steps past
        the end of the layer list. */
    method ComputeOutputs(activation: real -> real)
      requires Valid()
      requires |layers| >= 1
      modifies this`layers
      ensures Valid()
      ensures Widths(layers) == Widths(old(layers))
      ensures layers[0] == old(layers)[0]
      ensures forall l, i :: 1 <= l < |layers| && 0 <= i < |layers[l]| ==> Settled(old(layers), layers, connections, activation, l, i)
      ensures forall l, i :: 0 <= l < |layers| && 0 <= i < |layers[l]| && NumberOfInputs(old(layers)[l][i]) == 0 ==> layers[l][i] == old(layers)[l][i]
    {
      ghost var t := Topo();
      var l := 1;
      while l < |layers|
        invariant 1 <= l <= |layers|
        invariant Widths(layers) == Widths(t.layers)
        invariant layers[0] == t.layers[0]
        invariant forall l2: nat, i2: nat :: 1 <= l2 && Before(l2, i2, l, 0) && l2 < |layers| && i2 < |layers[l2]| ==>
          Settled(t.layers, layers, connections, activation, l2, i2)
        invariant forall l2 :: l <= l2 < |layers| ==> layers[l2] == t.layers[l2]
      {
        ComputeLayer(l, activation, t);
        l := l + 1;
      }
      forall l2, i | 0 <= l2 < |layers| && 0 <= i < |layers[l2]|
        ensures layers[l2][i].inputs == t.layers[l2][i].inputs && layers[l2][i].outputs == t.layers[l2][i].outputs
        ensures NumberOfInputs(t.layers[l2][i]) == 0 ==> layers[l2][i] == t.layers[l2][i]
      {
        if l2 > 0 {
          assert Before(l2, i, l, 0);
          assert Settled(t.layers, layers, connections, activation, l2, i);
        }
      }
      SameListsValid(t, layers);
    }

    /** The inner loop of `computeOutputs`: computes the neurons of layer l. */
    method ComputeLayer(l: nat, activation: real -> real, ghost t: Topology)
      requires t.Valid() && t.connections == connections
      requires 1 <= l < |layers|
      requires Widths(layers) == Widths(t.layers)
      requires layers[0] == t.layers[0]
      requires forall l2: nat, i2: nat :: 1 <= l2 && Before(l2, i2, l, 0) && l2 < |layers| && i2 < |layers[l2]| ==>
        Settled(t.layers, layers, connections, activation, l2, i2)
      requires forall l2 :: l <= l2 < |layers| ==> layers[l2] == t.layers[l2]
      modifies this`layers
      ensures Widths(layers) == Widths(t.layers)
      ensures layers[0] == t.layers[0]
      ensures forall l2: nat, i2: nat :: 1 <= l2 && Before(l2, i2, l + 1, 0) && l2 < |layers| && i2 < |layers[l2]| ==>
        Settled(t.layers, layers, connections, activation, l2, i2)
      ensures forall l2 :: l < l2 < |layers| ==> layers[l2] == t.layers[l2]
    {
      var i := 0;
      while i < |layers[l]|
        invariant Widths(layers) == Widths(t.layers) && l < |layers|
        invariant 0 <= i <= |layers[l]|
        invariant layers[0] == t.layers[0]
        invariant forall l2: nat, i2: nat :: 1 <= l2 && Before(l2, i2, l, i) && l2 < |layers| && i2 < |layers[l2]| ==>
          Settled(t.layers, layers, connections, activation, l2, i2)
        invariant forall l2 :: l < l2 < |layers| ==> layers[l2] == t.layers[l2]
        invariant forall j :: i <= j < |layers[l]| ==> layers[l][j] == t.layers[l][j]
      {
        SettleStep(t, layers, activation, l, i);
        var m := Compute(layers[l][i], connections, layers, activation);
        layers := layers[l := layers[l][i := m]];
        i := i + 1;
      }
      forall l2: nat, i2: nat | 1 <= l2 && Before(l2, i2, l + 1, 0) && l2 < |layers| && i2 < |layers[l2]|
        ensures Settled(t.layers, layers, connections, activation, l2, i2)
      {
        assert Before(l2, i2, l, i);
      }
    }

    /** `process`: loads the input vector (ignored, with an error report, when
        its size is wrong), runs the forward pass and reads the output values
        of the last layer. Bias neurons are not refreshed here. */
    method Process(inputs: LearningVector, activation: real -> real) returns (result: LearningVector)
      requires Valid()
      requires |layers| >= 1
      modifies this`layers
      ensures Valid()
      ensures Widths(layers) == Widths(old(layers))
      ensures forall i :: 0 <= i < |layers[0]| ==>
        layers[0][i] == (if |inputs| == |layers[0]| then old(layers)[0][i].(outputValue := inputs[i]) else old(layers)[0][i])
      ensures forall l, i :: 1 <= l < |layers| && 0 <= i < |layers[l]| ==> Settled(old(layers), layers, connections, activation, l, i)
      ensures |result| == |layers[|layers| - 1]|
      ensures forall i :: 0 <= i < |result| ==> result[i] == layers[|layers| - 1][i].outputValue
      ensures |layers| == 1 && |inputs| == |layers[0]| ==> result == inputs
    {
      ghost var before := layers;
      SetInputs(inputs);
      ghost var middle := layers;
      TailsAgree(before, middle);
      ComputeOutputs(activation);
      SettledFrom(before, middle, layers, connections, activation);
      result := OutputValues();
    }

    /** The loop of `process` that collects the output values of the last
        layer. */
    method OutputValues() returns (result: LearningVector)
      requires |layers| >= 1
      ensures |result| == |layers[|layers| - 1]|
      ensures forall i :: 0 <= i < |result| ==> result[i] == layers[|layers| - 1][i].outputValue
    {
      var last := |layers| - 1;
      result := [];
      var i := 0;
      while i < |layers[last]|
        invariant 0 <= i <= |layers[last]|
        invariant |result| == i
        invariant forall j :: 0 <= j < i ==> result[j] == layers[last][j].outputValue
      {
        result := result + [layers[last][i].outputValue];
        i := i + 1;
      }
    }
  }
}
