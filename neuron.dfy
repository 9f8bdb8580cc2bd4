/** A neuron of the network, as a value stored in the network's arena.
    Connections live in the network's connection list and are referred to by
    their index in it; a neuron keeps the indices of its incoming and outgoing
    connections, in the order they were added. Floating-point values are
    modelled as reals. */
module Neurons {

  /** The derived role of a neuron; it is never stored. */
  datatype Role = Input | Output | Hidden | Bias

  /** The address of a neuron: its layer and its index inside the layer. */
  datatype Position = Position(layer: nat, index: nat)

  /** A directed, weighted connection between two neurons. */
  datatype Connection = Connection(source: Position, destination: Position, weight: real, learningRate: real)

  /** The learning rate every new connection starts with. */
  const DefaultLearningRate: real := 0.001

  datatype Neuron = Neuron(
    inputs: seq<nat>,      // indices of the incoming connections
    outputs: seq<nat>,     // indices of the outgoing connections
    netValue: real,
    outputValue: real,
    desiredOutput: real,
    derivative: real)

  /** A freshly constructed neuron: no connections and zero values. Its desired
      output is left uninitialised by the constructor, so it is a parameter. */
  function NewNeuron(desired: real): (n: Neuron)
    ensures IsFresh(n) && n.desiredOutput == desired
  {
    Neuron([], [], 0.0, 0.0, desired, 0.0)
  }

  predicate IsFresh(n: Neuron)
  {
    n.inputs == [] && n.outputs == [] && n.netValue == 0.0 && n.outputValue == 0.0 && n.derivative == 0.0
  }

  /** Whether p addresses a neuron of the arena. */
  predicate Exists(layers: seq<seq<Neuron>>, p: Position)
  {
    p.layer < |layers| && p.index < |layers[p.layer]|
  }

  /** `getNumberOfInputs`: the number of incoming connections, zero exactly
      for a neuron that has none. */
  function NumberOfInputs(n: Neuron): (k: nat)
    ensures k == 0 <==> n.inputs == []
  {
    |n.inputs|
  }

  /** `getNumberOfOutputs`: the number of outgoing connections, zero exactly
      for a neuron that has none. */
  function NumberOfOutputs(n: Neuron): (k: nat)
    ensures k == 0 <==> n.outputs == []
  {
    |n.outputs|
  }

  /** `getType`: the role of the neuron at `layer` in a network of
      `numberOfLayers` layers that has `numberOfInputs` incoming connections.
      The input layer wins over the last layer. */
  function RoleOf(layer: nat, numberOfLayers: nat, numberOfInputs: nat): (r: Role)
    requires layer < numberOfLayers
    ensures r == Input <==> layer == 0
    ensures r == Output <==> 0 < layer == numberOfLayers - 1
    ensures r == Bias <==> 0 < layer < numberOfLayers - 1 && numberOfInputs == 0
    ensures r == Hidden <==> 0 < layer < numberOfLayers - 1 && numberOfInputs > 0
  {
    if layer == 0 then Input
    else if layer == numberOfLayers - 1 then Output
    else if numberOfInputs == 0 then Bias
    else Hidden
  }

  /** `addInput`: one more incoming connection, at the end of the list. */
  function AddInput(n: Neuron, connection: nat): (m: Neuron)
    ensures NumberOfInputs(m) == NumberOfInputs(n) + 1
    ensures m.inputs[..|n.inputs|] == n.inputs && m.inputs[|n.inputs|] == connection
    ensures m.(inputs := n.inputs) == n
  {
    n.(inputs := n.inputs + [connection])
  }

  /** `addOutput`: one more outgoing connection, at the end of the list. */
  function AddOutput(n: Neuron, connection: nat): (m: Neuron)
    ensures NumberOfOutputs(m) == NumberOfOutputs(n) + 1
    ensures m.outputs[..|n.outputs|] == n.outputs && m.outputs[|n.outputs|] == connection
    ensures m.(outputs := n.outputs) == n
  {
    n.(outputs := n.outputs + [connection])
  }

  /** Every connection index in ids refers to a connection of the list. */
  predicate InRange(ids: seq<nat>, connections: seq<Connection>)
  {
    forall k :: 0 <= k < |ids| ==> ids[k] < |connections|
  }

  /** `connectedToDestination`: a search of the outgoing connections that stops
      at the first one leading to `destination`. */
  method ConnectedToDestination(n: Neuron, connections: seq<Connection>, destination: Position) returns (result: bool)
    requires InRange(n.outputs, connections)
    ensures result <==> exists k :: 0 <= k < |n.outputs| && connections[n.outputs[k]].destination == destination
  {
    result := false;
    var k := 0;
    while k < |n.outputs|
      invariant 0 <= k <= |n.outputs|
      invariant !result
      invariant forall j :: 0 <= j < k ==> connections[n.outputs[j]].destination != destination
    {
      if connections[n.outputs[k]].destination == destination {
        result := true;
        break;
      }
      k := k + 1;
    }
  }

  /** The position in `outputs` of the first connection leading to
      `destination`, or |outputs| when there is none. */
  function FirstTo(outputs: seq<nat>, connections: seq<Connection>, destination: Position): (k: nat)
    requires InRange(outputs, connections)
    ensures k <= |outputs|
    ensures k < |outputs| ==> connections[outputs[k]].destination == destination
    ensures forall j :: 0 <= j < k ==> connections[outputs[j]].destination != destination
  {
    if outputs == [] then 0
    else if connections[outputs[0]].destination == destination then 0
    else 1 + FirstTo(outputs[1..], connections, destination)
  }

  /** The connection list after overwriting the weight of the connection found
      at position k of `outputs`, if k names one. */
  function WeightSetAt(outputs: seq<nat>, connections: seq<Connection>, k: nat, weight: real): (r: seq<Connection>)
    requires InRange(outputs, connections)
    ensures |r| == |connections|
  {
    if k < |outputs| then connections[outputs[k] := connections[outputs[k]].(weight := weight)]
    else connections
  }

  /** `Neuron::setConnectionWeight`: the first outgoing connection leading to
      `destination` gets the new weight and the search stops; when there is no
      such connection nothing changes. */
  method SetConnectionWeight(n: Neuron, connections: seq<Connection>, destination: Position, weight: real)
    returns (result: seq<Connection>)
    requires InRange(n.outputs, connections)
    ensures result == WeightSetAt(n.outputs, connections, FirstTo(n.outputs, connections, destination), weight)
  {
    var k := 0;
    while k < |n.outputs|
      invariant 0 <= k <= |n.outputs|
      invariant forall j :: 0 <= j < k ==> connections[n.outputs[j]].destination != destination
    {
      var c := connections[n.outputs[k]];
      if c.destination == destination {
        FirstToIs(n.outputs, connections, destination, k);
        return connections[n.outputs[k] := c.(weight := weight)];
      }
      k := k + 1;
    }
    FirstToIs(n.outputs, connections, destination, |n.outputs|);
    return connections;
  }

  /** FirstTo is determined by its contract. */
  lemma {:induction false} FirstToIs(outputs: seq<nat>, connections: seq<Connection>, destination: Position, k: nat)
    requires InRange(outputs, connections)
    requires k <= |outputs|
    requires k < |outputs| ==> connections[outputs[k]].destination == destination
    requires forall j :: 0 <= j < k ==> connections[outputs[j]].destination != destination
    ensures FirstTo(outputs, connections, destination) == k
  {
  }

  /** `setOutputValue`: only an input or a bias neuron takes a new output value;
      any other neuron is left as it is. */
  function SetOutputValue(n: Neuron, role: Role, value: real): (m: Neuron)
    ensures m.outputValue == (if role == Input || role == Bias then value else n.outputValue)
    ensures m.(outputValue := n.outputValue) == n
  {
    if role != Input && role != Bias then n else n.(outputValue := value)
  }

  /** `setDesiredOutputValue`: only an output neuron takes a desired output. */
  function SetDesiredOutputValue(n: Neuron, role: Role, value: real): (m: Neuron)
    ensures m.desiredOutput == (if role == Output then value else n.desiredOutput)
    ensures m.(desiredOutput := n.desiredOutput) == n
  {
    if role != Output then n else n.(desiredOutput := value)
  }

  /** Every incoming connection index is in the list and its source neuron exists. */
  predicate Resolvable(ids: seq<nat>, connections: seq<Connection>, layers: seq<seq<Neuron>>)
  {
    forall k :: 0 <= k < |ids| ==> ids[k] < |connections| && Exists(layers, connections[ids[k]].source)
  }

  /** The output value of the source of connection c times its weight. */
  function Term(c: Connection, layers: seq<seq<Neuron>>): real
    requires Exists(layers, c.source)
  {
    layers[c.source.layer][c.source.index].outputValue * c.weight
  }

  /** The net value: the terms of the incoming connections added up from the
      first to the last, starting at zero. */
  function NetInput(ids: seq<nat>, connections: seq<Connection>, layers: seq<seq<Neuron>>): real
    requires Resolvable(ids, connections, layers)
    decreases |ids|
  {
    if ids == [] then 0.0
    else NetInput(ids[..|ids| - 1], connections, layers) + Term(connections[ids[|ids| - 1]], layers)
  }

  /** What `compute` makes of n, with `activation` for the activation function. */
  function Computed(n: Neuron, connections: seq<Connection>, layers: seq<seq<Neuron>>, activation: real -> real): Neuron
    requires Resolvable(n.inputs, connections, layers)
  {
    if |n.inputs| == 0 then n
    else
      var net := NetInput(n.inputs, connections, layers);
      n.(netValue := net, outputValue := activation(net))
  }

  /** `compute`: a neuron without incoming connections (a bias neuron) is left
      alone; otherwise the net value is accumulated over the incoming
      connections and the output value is the activation of it. */
  method Compute(n: Neuron, connections: seq<Connection>, layers: seq<seq<Neuron>>, activation: real -> real)
    returns (m: Neuron)
    requires Resolvable(n.inputs, connections, layers)
    ensures |n.inputs| == 0 ==> m == n
    ensures m == Computed(n, connections, layers, activation)
    ensures m.inputs == n.inputs && m.outputs == n.outputs
    ensures m.desiredOutput == n.desiredOutput && m.derivative == n.derivative
  {
    if NumberOfInputs(n) == 0 {
      return n;
    }
    var net := 0.0;
    var k := 0;
    while k < |n.inputs|
      invariant 0 <= k <= |n.inputs|
      invariant net == NetInput(n.inputs[..k], connections, layers)
    {
      var c := connections[n.inputs[k]];
      assert n.inputs[..k + 1][..k] == n.inputs[..k];
      net := net + layers[c.source.layer][c.source.index].outputValue * c.weight;
      k := k + 1;
    }
    assert n.inputs[..|n.inputs|] == n.inputs;
    m := n.(netValue := net, outputValue := activation(net));
  }

  /** `getError`: half the squared difference between desired and actual output
      for an output neuron; zero, with an error report, for any other role. */
  function Error(n: Neuron, role: Role): (e: real)
    ensures role != Output ==> e == 0.0
    ensures e >= 0.0
  {
    if role != Output then 0.0
    else (n.desiredOutput - n.outputValue) * (n.desiredOutput - n.outputValue) / 2.0
  }
}
