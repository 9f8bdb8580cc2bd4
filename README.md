# ENNlib network topology, chord codec and note shifter, in Dafny

ENNlib is a small C++ library for feed-forward neural networks. This project
models its discrete core in Dafny and proves properties of that model.

- `neuron.dfy` (module `Neurons`): the neuron of `src/neuron.cpp` as a value.
  - Its role is derived from its layer and its number of incoming connections.
  - The input and output connection lists, the search for a connection to a destination, and the reweighting of the first such connection.
  - The role guards on setting an output value or a desired output.
  - The zero-input early exit of `compute`, and the role guard of `getError`.
- `neuralnetwork.dfy` (module `NeuralNetworks`): the network of `src/neuralnetwork.cpp` as a `class`.
  - It holds an arena of layers (`seq<seq<Neuron>>`, a neuron being addressed by its layer and index), the connection list, and the learning set.
  - The connection list holds records of the two ends, the weight and the learning rate. A neuron keeps the indices of its connections in that list.
  - The class invariant `Valid` holds that:
    - every connection joins existing neurons and goes strictly upward;
    - every neuron lists exactly the connections that start or end at it, in creation order.
  - Operations: `addLayer`, the layer queries, the checked and the unchecked `connect`, `connectionExists`, `setConnectionWeight` and `connectAllLayers`.
  - The learning-set operations, `setLearningRate`, `setBiasNeurons`, `setInputs`, `setDesiredOutputs`, `computeOutputs` and `process`.
- `tokens.dfy` (module `Tokens`): what both chord programs build their parsing on.
  - `split`, with the semantics of `std::getline`.
  - `std::stoi` on a run of digits after optional white space.
  - Writing numbers back in decimal, and joining items with a separator.
  - The "blank or comment line" test.
- `chords.dfy` (module `ChordsRecognition`): the learning-set codec of `examples/04-ChordsRecognition/main.cpp`.
  - A note list such as `0-4-7-10` becomes a 24-slot LOW/HIGH input vector.
  - A chord name such as `Db_m7` becomes a 16-slot output vector with its root slot and its composition slot HIGH.
  - A line is classified, stripped of its spaces and parsed.
  - A file's lines are filtered into a learning set.
  - An output vector is decoded back to a chord name with a certainty.
- `increase_notes.dfy` (module `IncreaseNotes`): `increaseNumbers` of `examples/04-ChordsRecognition/utilities/increase_notes.cpp`.
  - Each note number of a data line is increased by one and the chord is kept.

The loops of the C++ code are methods with loop invariants, each proved against a specification function:
- the `getline` loop of `split`;
- the slot-filling loops of the two parsers;
- the space-removal loop and the learning-set filter;
- the loop that writes the increased numbers;
- the nested loops of `connectAllLayers`, `setBiasNeurons`, `setInputs`, `setDesiredOutputs` and `computeOutputs`;
- the search loops of the neuron.

Lemmas then state what the C++ code promises about those functions. The main ones:
- the decode of an encoded chord gives the chord back with certainty 1;
- `connect` creates at most one connection per pair of neurons;
- on a network without connections, `connectAllLayers` creates exactly width(k) times width(k+1) connections out of layer k;
- the learning-set filter distributes over concatenation of the line list;
- increasing a line adds one to every note number and keeps the chord;
- any two states settled on every layer above the input layer are the same state, so `computeOutputs` has one result.

A note on the two copies of `split`: the chord program and the note-shifting
utility each define `split` with identical code. `Tokens.Split` models both.

Floating-point values are modelled as reals, and `tanh` is a parameter
`activation` of `ComputeOutputs` and `Process`. The random initial weight of a
connection is an arbitrary value in the interval that `rand()` can produce.

## Model

| member | source | states |
|---|---|---|
| Neurons.NewNeuron | src/neuron.cpp:7-16 | a new neuron has no connections and zero net value, output and derivative; its desired output is whatever the caller leaves in it |
| Neurons.RoleOf | src/neuron.cpp:18-32 | the role is Input exactly on layer 0 (which wins over "last layer"), Output exactly on the last layer otherwise, and Bias or Hidden on an interior layer according to whether the neuron has no incoming connection |
| Neurons.AddInput | src/neuron.cpp:34-37 | the incoming list gains exactly one entry, the new connection, at its end; every other field is unchanged |
| Neurons.AddOutput | src/neuron.cpp:39-42 | the outgoing list gains exactly one entry, the new connection, at its end; every other field is unchanged |
| Neurons.NumberOfInputs | src/neuron.cpp:44-47 | the number of incoming connections, 0 exactly when there are none |
| Neurons.NumberOfOutputs | src/neuron.cpp:49-52 | the number of outgoing connections, 0 exactly when there are none |
| Neurons.ConnectedToDestination | src/neuron.cpp:54-68 | true if and only if some outgoing connection ends at the destination |
| Neurons.FirstTo | src/neuron.cpp:70-79 | the position of the first outgoing connection ending at the destination, or the list length when there is none |
| Neurons.FirstToIs | src/neuron.cpp:70-79 | that position is the only one with those properties |
| Neurons.SetConnectionWeight | src/neuron.cpp:70-82 | only the first outgoing connection to the destination is reweighted and the search stops there; with no match the connection list is unchanged |
| Neurons.Compute | src/neuron.cpp:84-98 | a neuron without incoming connections is returned unchanged; otherwise the net value is the sum, in list order, of the source outputs times the weights, and the output is the activation of it; the connection lists, the desired output and the derivative are kept |
| Neurons.SetOutputValue | src/neuron.cpp:110-119 | the output value changes to the new value for an Input or Bias neuron only; nothing else changes |
| Neurons.SetDesiredOutputValue | src/neuron.cpp:121-130 | the desired output changes for an Output neuron only; nothing else changes |
| Neurons.Error | src/neuron.cpp:154-163 | zero for any role but Output, and never negative |
| NeuralNetworks.NeuralNetwork.constructor | src/neuralnetwork.cpp:5-8 | a new network has no layers, no connections and an empty learning set, and satisfies the invariant |
| NeuralNetworks.NeuralNetwork.AddLayer | src/neuralnetwork.cpp:10-18 | exactly one layer of the given number of fresh neurons is appended; earlier layers, the connections and the learning set are unchanged; the invariant is kept |
| NeuralNetworks.ValidAppendLayer | src/neuralnetwork.cpp:10-18 | appending a layer of fresh neurons keeps the invariant |
| NeuralNetworks.Topology.NumberOfNeuronsOnLayer | src/neuralnetwork.cpp:25-36 | the width of an existing layer, 0 for a layer that does not exist |
| NeuralNetworks.Topology.NeuronExists | src/neuralnetwork.cpp:38-47 | holds if and only if the layer exists and the index is below its width |
| NeuralNetworks.Topology.GetNeuron | src/neuralnetwork.cpp:49-81 | the neuron at the address when it exists, and nothing (the null pointer) exactly when it does not |
| NeuralNetworks.Topology.LastLayer | src/neuralnetwork.cpp:119-119 | `getNumberOfLayers() - 1` in 32-bit unsigned arithmetic: one more than it is the layer count modulo 2^32, and it is an existing layer whenever there is one |
| NeuralNetworks.Topology.Decide | src/neuralnetwork.cpp:111-153 | the checks of `connect` in order: a request into layer 0 or out of the last layer is refused first; it is accepted if and only if it goes upward between existing neurons that are not yet connected |
| NeuralNetworks.NeuralNetwork.Connect | src/neuralnetwork.cpp:111-159 | a refused request changes nothing; an accepted one appends one connection with the requested ends and the default learning rate, registered with both neurons; the invariant is kept |
| NeuralNetworks.ForwardOnly | src/neuralnetwork.cpp:113-135 | under the invariant, no connection ends in layer 0 or starts in the last layer, and every connection goes strictly upward |
| NeuralNetworks.ConnectTwice | src/neuralnetwork.cpp:149-153 | after a successful connect, the same request is refused as already connected |
| NeuralNetworks.NoIdsOutside | src/neuralnetwork.cpp:137-147 | under the invariant, no connection starts or ends at an address that does not exist |
| NeuralNetworks.NeuralNetwork.Link | src/neuralnetwork.cpp:161-167 | the unchecked connect appends one connection with the given ends, the default learning rate and a weight in [-0.5, 0.5]; the source neuron lists it as outgoing and the destination as incoming; neuron values and the learning set are unchanged |
| NeuralNetworks.WithConnectionValid | src/neuralnetwork.cpp:161-167 | adding an upward connection between existing neurons keeps the invariant and appends exactly that connection |
| NeuralNetworks.WithConnectionShape | src/neuralnetwork.cpp:161-167 | only the two end neurons change, each by one list entry naming the new connection; layer widths are unchanged |
| NeuralNetworks.IdsSnoc | src/neuralnetwork.cpp:161-167 | a new connection appears once, at the end, in the incoming list of its destination and in the outgoing list of its source, and in no other list |
| NeuralNetworks.NeuralNetwork.SetConnectionWeight | src/neuralnetwork.cpp:169-178 | only the first connection of the source to the destination is reweighted, and with no such connection nothing changes; layers and learning set are unchanged |
| NeuralNetworks.EndsWeightSetAt | src/neuralnetwork.cpp:169-178 | reweighting a connection keeps the ends of every connection |
| NeuralNetworks.ValidReweighted | src/neuralnetwork.cpp:228-232 | changing only weights or learning rates keeps the invariant |
| NeuralNetworks.NeuralNetwork.ConnectionExists | src/neuralnetwork.cpp:180-183 | true if and only if the source neuron has an outgoing connection to the destination |
| NeuralNetworks.NeuralNetwork.ConnectAllLayers | src/neuralnetwork.cpp:185-199 | the connections created are, in order, neuron i of layer k to neuron j of layer k+1 for every layer k but the last; existing connections are kept, so a second call duplicates them |
| NeuralNetworks.NeuralNetwork.ConnectLayerAfter | src/neuralnetwork.cpp:188-198 | one more turn of the layer loop extends the connections made so far by the block of the next layer pair |
| NeuralNetworks.NeuralNetwork.ConnectLayer | src/neuralnetwork.cpp:190-197 | one layer's turn appends the whole block of pairs from layer k to layer k+1, row by row |
| NeuralNetworks.NeuralNetwork.ConnectRow | src/neuralnetwork.cpp:193-196 | one neuron's turn appends its pairs with every neuron of the next layer, in order |
| NeuralNetworks.NeuralNetwork.LinkStep | src/neuralnetwork.cpp:195-195 | one innermost call appends one pair |
| NeuralNetworks.BlockShape | src/neuralnetwork.cpp:190-197 | the block of a layer pair holds n·m pairs, each from layer k to layer k+1, with neuron i to neuron j at entry i·m+j |
| NeuralNetworks.AllPairsCount | src/neuralnetwork.cpp:185-199 | the loop creates the sum of width(k)·width(k+1) connections |
| NeuralNetworks.AllPairsFromLayer | src/neuralnetwork.cpp:185-199 | exactly width(l)·width(l+1) of the created connections start on layer l, for every layer but the last, and none start on the last |
| NeuralNetworks.AllPairsAdjacent | src/neuralnetwork.cpp:185-199 | every created connection joins existing neurons of two consecutive layers |
| NeuralNetworks.AllPairsComplete | src/neuralnetwork.cpp:185-199 | every pair of neurons on consecutive layers is connected |
| NeuralNetworks.NeuralNetwork.AddLearningPoint | src/neuralnetwork.cpp:201-216 | the point is appended if and only if its input size is the width of layer 0 and its output size the width of the last layer; otherwise the set is unchanged |
| NeuralNetworks.NeuralNetwork.ClearLearningSet | src/neuralnetwork.cpp:218-221 | the learning set becomes empty |
| NeuralNetworks.NeuralNetwork.AppendLearningSet | src/neuralnetwork.cpp:223-226 | the given points are inserted before the existing ones |
| NeuralNetworks.NeuralNetwork.SetLearningRate | src/neuralnetwork.cpp:228-232 | every connection gets the new learning rate and nothing else about it changes |
| NeuralNetworks.IdsFollowEnds | src/neuralnetwork.cpp:228-232 | the connection lists of every neuron depend only on the ends of the connections |
| NeuralNetworks.NeuralNetwork.Process | src/neuralnetwork.cpp:284-297 | the inputs are set when their size matches layer 0; every other layer is settled; the result has one value per last-layer neuron, in order; with one layer it is the inputs |
| NeuralNetworks.NeuralNetwork.OutputValues | src/neuralnetwork.cpp:289-296 | the output values of the last layer, in order |
| NeuralNetworks.SettledFrom | src/neuralnetwork.cpp:284-287 | setting the inputs before computing does not change what the layers above settle to |
| NeuralNetworks.NeuralNetwork.SetBiasNeurons | src/neuralnetwork.cpp:299-309 | exactly the neurons whose role is Bias get the new output value; every other neuron is unchanged |
| NeuralNetworks.NeuralNetwork.SetBiasOnLayer | src/neuralnetwork.cpp:303-307 | one turn of the layer loop sets the neurons of that layer without incoming connections |
| NeuralNetworks.NeuralNetwork.SetInputs | src/neuralnetwork.cpp:311-322 | with a size mismatch nothing changes; otherwise input neuron i gets value i and no other layer changes |
| NeuralNetworks.NeuralNetwork.SetDesiredOutputs | src/neuralnetwork.cpp:324-335 | with a size mismatch nothing changes; otherwise last-layer neuron i gets desired output i, unless that layer is the input layer, whose neurons refuse it |
| NeuralNetworks.NeuralNetwork.ComputeOutputs | src/neuralnetwork.cpp:337-350 | layer 0 is kept; every neuron above it is computed from the already computed layers below; neurons without incoming connections are unchanged |
| NeuralNetworks.NeuralNetwork.ComputeLayer | src/neuralnetwork.cpp:344-347 | one layer's turn computes that layer's neurons in order and touches no higher layer |
| NeuralNetworks.SettleStep | src/neuralnetwork.cpp:344-347 | computing one more neuron keeps every earlier neuron settled and settles this one |
| NeuralNetworks.FedFromBelow | src/neuralnetwork.cpp:337-350 | every incoming connection of a neuron comes from a lower layer, so its inputs are computed before it |
| NeuralNetworks.NetInputAgree | src/neuralnetwork.cpp:337-350 | the net input of a neuron depends only on the layers below it |
| NeuralNetworks.SettledUnique | src/neuralnetwork.cpp:337-350 | two settled states over the same inputs are equal |
| Tokens.Split | examples/04-ChordsRecognition/main.cpp:26-36 | the `getline` loop yields the `t`-separated fields of the string without a trailing empty one |
| Tokens.FieldsFree | examples/04-ChordsRecognition/main.cpp:26-36 | no field contains the separator |
| Tokens.FieldsJoin | examples/04-ChordsRecognition/main.cpp:26-36 | joining the fields with the separator gives the string back |
| Tokens.LastFieldEmpty | examples/04-ChordsRecognition/main.cpp:26-36 | the last field is empty exactly when the string is empty or ends with the separator, which is when `getline` yields one item fewer |
| Tokens.ItemsFree | examples/04-ChordsRecognition/main.cpp:26-36 | no item of `split` contains the separator |
| Tokens.ItemsJoin | examples/04-ChordsRecognition/main.cpp:26-36 | joining the items gives the string back, less a trailing separator |
| Tokens.ItemsOfJoin | examples/04-ChordsRecognition/main.cpp:26-36 | splitting a join of separator-free items whose last is not empty gives the items back |
| Tokens.LeadingDelimiter | examples/04-ChordsRecognition/main.cpp:26-36 | a leading separator yields a leading empty item |
| Tokens.ItemsNonEmpty | examples/04-ChordsRecognition/utilities/increase_notes.cpp:8-18 | `split` yields no item exactly for the empty string |
| Tokens.SkipSpacesShape | examples/04-ChordsRecognition/main.cpp:48-48 | `stoi` drops exactly the leading white space |
| Tokens.LeadingDigitsShape | examples/04-ChordsRecognition/main.cpp:48-48 | `stoi` reads the longest run of digits that follows |
| Tokens.StoiOf | examples/04-ChordsRecognition/main.cpp:48-48 | `stoi` of white space, a non-empty run of digits and a rest that does not start with a digit succeeds and gives the value of the digits; the same call is at utilities/increase_notes.cpp:31 |
| Tokens.FindFirstNotOf | examples/04-ChordsRecognition/main.cpp:92-92 | the index of the first character not in the set, with every earlier character in it, or -1 (`npos`) exactly when every character is in the set |
| Tokens.LineClassification | examples/04-ChordsRecognition/main.cpp:92-100 | a line starts blank exactly when `find_first_not_of(" \n")` is not 0 (the empty line gives `npos`), and holds data exactly when it is 0 and the line does not start with `#`; the same test is at utilities/increase_notes.cpp:22 |
| Tokens.StoiDecimal | examples/04-ChordsRecognition/main.cpp:48-48 | reading a number written in decimal, followed by a non-digit or nothing, gives the number back |
| Tokens.DecimalValue | examples/04-ChordsRecognition/utilities/increase_notes.cpp:31-31 | the decimal digits of a number have that number as their value |
| Tokens.Decimal | examples/04-ChordsRecognition/utilities/increase_notes.cpp:31-31 | a number is written as a non-empty string of digits |
| Tokens.JoinHead | examples/04-ChordsRecognition/utilities/increase_notes.cpp:29-34 | a join of a non-empty first item starts with that item's first character |
| Tokens.JoinPrefix | examples/04-ChordsRecognition/utilities/increase_notes.cpp:29-34 | writing one more item extends the join by a separator and the item |
| Tokens.JoinWithout | examples/04-ChordsRecognition/utilities/increase_notes.cpp:29-34 | a character in neither the items nor the separator is not in the join |
| Tokens.JoinExtendLast | examples/04-ChordsRecognition/utilities/increase_notes.cpp:35-35 | text written after a join belongs to its last item |
| ChordsRecognition.NoteNumbers | examples/04-ChordsRecognition/main.cpp:45-49 | one note number per `-`-item, in order, each the `stoi` of its item and below 24 |
| ChordsRecognition.LowSlots | examples/04-ChordsRecognition/main.cpp:40-43 | a new vector of the given size with every slot LOW |
| ChordsRecognition.MarkNotes | examples/04-ChordsRecognition/main.cpp:46-50 | the loop sets to HIGH the slot of each note in turn |
| ChordsRecognition.MarkedSlots | examples/04-ChordsRecognition/main.cpp:46-50 | after the loop, a slot is HIGH if it was listed and keeps its value otherwise |
| ChordsRecognition.NotesInput | examples/04-ChordsRecognition/main.cpp:38-60 | the input vector has 24 slots |
| ChordsRecognition.NotesInputSlots | examples/04-ChordsRecognition/main.cpp:38-50 | slot i is HIGH if and only if i is a listed note number, and LOW if and only if it is not |
| ChordsRecognition.NotesRoundTrip | examples/04-ChordsRecognition/main.cpp:45-49 | notes written in decimal and joined with `-` parse back to the same note numbers |
| ChordsRecognition.ParseNotesIntoInput | examples/04-ChordsRecognition/main.cpp:38-60 | computes the input vector of the notes |
| ChordsRecognition.IndexOf | examples/04-ChordsRecognition/main.cpp:71-75 | `find` and `distance`: the index of the first entry equal to the name, or the list length when there is none |
| ChordsRecognition.RootNumber | examples/04-ChordsRecognition/main.cpp:71-74 | the root index is at most 12, and 12 exactly for an unknown root |
| ChordsRecognition.CompositionNumber | examples/04-ChordsRecognition/main.cpp:72-75 | the composition index of a well-formed chord is below 4 |
| ChordsRecognition.UnknownRoot | examples/04-ChordsRecognition/main.cpp:71-77 | an unknown root gives index 12, so the first composition slot is set HIGH |
| ChordsRecognition.ChordOutput | examples/04-ChordsRecognition/main.cpp:62-88 | the output vector has 16 slots |
| ChordsRecognition.ChordVector | examples/04-ChordsRecognition/main.cpp:77-78 | the vector with two slots set has 16 slots |
| ChordsRecognition.ChordVectorSlots | examples/04-ChordsRecognition/main.cpp:64-78 | slot i is HIGH if and only if it is the root slot or 12 plus the composition, else LOW |
| ChordsRecognition.ChordOutputSlots | examples/04-ChordsRecognition/main.cpp:62-78 | the output of a chord has exactly its root slot and its composition slot HIGH, and every other slot LOW |
| ChordsRecognition.ParseChordsIntoOutput | examples/04-ChordsRecognition/main.cpp:62-88 | computes the output vector of the chord |
| ChordsRecognition.ChordItems | examples/04-ChordsRecognition/main.cpp:162-168 | a name written as root, `_`, composition splits back into root and composition |
| ChordsRecognition.ChordOutputOf | examples/04-ChordsRecognition/main.cpp:62-78 | the chord named by root r and composition c is well-formed, with root index r and composition index c |
| ChordsRecognition.ItemsNumbers | examples/04-ChordsRecognition/main.cpp:69-75 | any chord text that splits into a root and a composition name has their indices |
| ChordsRecognition.FirstMax | examples/04-ChordsRecognition/main.cpp:161-167 | `max_element`: the index of the first maximal element of the range |
| ChordsRecognition.FirstMaxAt | examples/04-ChordsRecognition/main.cpp:161-167 | a strictly largest element is the one found |
| ChordsRecognition.DecodedRoot | examples/04-ChordsRecognition/main.cpp:161-162 | the decoded root index is below 12 |
| ChordsRecognition.DecodedComposition | examples/04-ChordsRecognition/main.cpp:167-168 | the decoded composition index is below 4 |
| ChordsRecognition.Certainty | examples/04-ChordsRecognition/main.cpp:163-169 | the certainty of a slot value is 0 at LOW, 1 at HIGH and between 0 and 1 for a value between them |
| ChordsRecognition.ChordName | examples/04-ChordsRecognition/main.cpp:157-176 | the name is exactly the root of the first maximal root slot, `_`, and the composition of the first maximal composition slot, so it splits into those two; the certainty is the mean of the two slots' certainties, capped at 1 |
| ChordsRecognition.ChordRoundTrip | examples/04-ChordsRecognition/main.cpp:157-176 | decoding the output vector of any root-composition chord gives that chord with certainty 1 |
| ChordsRecognition.NameRoundTrip | examples/04-ChordsRecognition/main.cpp:157-176 | encoding a decoded name gives the vector whose HIGH slots are the two maxima found |
| ChordsRecognition.WithoutSpaces | examples/04-ChordsRecognition/main.cpp:108-116 | the line without its spaces holds no space and is no longer than the line |
| ChordsRecognition.WithoutSpacesFree | examples/04-ChordsRecognition/main.cpp:109-116 | a line without spaces is kept as it is |
| ChordsRecognition.WithoutSpacesIdempotent | examples/04-ChordsRecognition/main.cpp:109-116 | removing spaces twice is removing them once |
| ChordsRecognition.WithoutSpacesHead | examples/04-ChordsRecognition/main.cpp:109-116 | a line that does not start with a space keeps its first character |
| ChordsRecognition.WithoutSpacesSnoc | examples/04-ChordsRecognition/main.cpp:109-116 | one more character read extends the space-free line by that character unless it is a space |
| ChordsRecognition.RemoveSpaces | examples/04-ChordsRecognition/main.cpp:109-116 | the loop builds the line without its spaces |
| ChordsRecognition.LinePointShape | examples/04-ChordsRecognition/main.cpp:90-127 | the point is empty, in both vectors, exactly for an empty line, a line starting with a space or newline, and a comment; otherwise it has 24 inputs and 16 outputs |
| ChordsRecognition.LinePointWithoutSpaces | examples/04-ChordsRecognition/main.cpp:108-126 | a data line parses as its space-free version does |
| ChordsRecognition.ParseLineIntoLearningPoint | examples/04-ChordsRecognition/main.cpp:90-127 | computes the learning point of the line |
| ChordsRecognition.Points | examples/04-ChordsRecognition/main.cpp:142-145 | one parsed point per line, in order |
| ChordsRecognition.NonEmpty | examples/04-ChordsRecognition/main.cpp:146-149 | every kept point has non-empty inputs and outputs |
| ChordsRecognition.NonEmptyMembers | examples/04-ChordsRecognition/main.cpp:146-149 | every kept point is one of the parsed points |
| ChordsRecognition.NonEmptyAppend | examples/04-ChordsRecognition/main.cpp:142-150 | the filter of two lists in sequence is the two filters in sequence, so the order is kept |
| ChordsRecognition.LearningSetOfAppend | examples/04-ChordsRecognition/main.cpp:142-150 | the learning set of two runs of lines is the two learning sets in sequence |
| ChordsRecognition.LearningSetOfLine | examples/04-ChordsRecognition/main.cpp:142-150 | a single line contributes its point if it is a data line and nothing otherwise |
| ChordsRecognition.LearningSetShape | examples/04-ChordsRecognition/main.cpp:142-150 | every point of the learning set has 24 inputs and 16 outputs |
| ChordsRecognition.ParseLinesIntoLearningSet | examples/04-ChordsRecognition/main.cpp:142-150 | the loop computes the learning set of the lines |
| IncreaseNotes.NoteValues | examples/04-ChordsRecognition/utilities/increase_notes.cpp:26-31 | one value per number item of the first `;`-part |
| IncreaseNotes.NumbersReady | examples/04-ChordsRecognition/utilities/increase_notes.cpp:26-31 | the number items are numerals, and each decimal written is the value of its item plus one |
| IncreaseNotes.WriteNumbers | examples/04-ChordsRecognition/utilities/increase_notes.cpp:29-34 | the loop writes the decimals joined by single `-`, with none before the first or after the last |
| IncreaseNotes.RebuildLine | examples/04-ChordsRecognition/utilities/increase_notes.cpp:25-38 | a data line becomes its numbers plus one, ` ;`, and its last `;`-part |
| IncreaseNotes.IncreaseNumbers | examples/04-ChordsRecognition/utilities/increase_notes.cpp:20-39 | computes the increased line; blank and comment lines are returned at once |
| IncreaseNotes.NumbersField | examples/04-ChordsRecognition/utilities/increase_notes.cpp:29-35 | the numbers written start with a digit, hold no `;`, and split on `-` into the decimals, the last followed by the space |
| IncreaseNotes.NumbersFieldValues | examples/04-ChordsRecognition/utilities/increase_notes.cpp:29-35 | reading the numbers written gives back one numeral per value, with that value |
| IncreaseNotes.OutputParts | examples/04-ChordsRecognition/utilities/increase_notes.cpp:35-36 | the output splits on `;` into the numbers field and, unless it is empty, the kept last part |
| IncreaseNotes.ValuesOf | examples/04-ChordsRecognition/utilities/increase_notes.cpp:25-26 | a data line whose first part splits into numerals of some values has those note values |
| IncreaseNotes.OutputLine | examples/04-ChordsRecognition/utilities/increase_notes.cpp:25-36 | an output line with at least one number is a data line whose note values are the values written |
| IncreaseNotes.IncreasedRoundTrip | examples/04-ChordsRecognition/utilities/increase_notes.cpp:25-38 | for a data line with at least one note number, the output has as many note values as the input, each one more than the input's, and its only other `;`-item is the input's last part, verbatim |
| IncreaseNotes.NoNumbers | examples/04-ChordsRecognition/utilities/increase_notes.cpp:25-36 | a data line without note numbers (one starting with `;`) becomes ` ;` and its last part, which is no longer a data line |
| IncreaseNotes.IncreasedChanges | examples/04-ChordsRecognition/utilities/increase_notes.cpp:20-23 | a line comes back unchanged if and only if it is empty, starts with a space or newline, or is a comment |

## Left out

- Training: `train`, `computeDerivativesOfErrorToNets`, `updateWeights`, the network's `getError`, and the neuron's derivative computation are floating-point gradient descent. `src/connection.cpp` is not part of this model beyond the weight and learning-rate fields of a connection.
- `toString` of the neuron and of the network: these render floats through streams.
- Floating-point rounding: every float is a real. `tanh` is the parameter `activation`, and `pow(x, 2) / 2.0` is a product of reals.
- `srand` in the constructor and `rand()` for the initial weight produce no modelled value. The weight is any value in [-0.5, 0.5].
- The OpenMP branch of `computeOutputs` runs concurrently. The model computes the neurons of a layer one after the other. `NeuralNetworks.SettledUnique` shows that any two states settled on every layer above the input layer are the same state; it does not model the interleaving of the parallel loop.
- The logging and error-message macros are console output; a refused operation simply returns.
- `getNeuronPosition` searches for a neuron by address. In the arena every neuron is named by its (layer, index) position, so that search is the identity and is not modelled.
- Examples 00 to 03 and the `main` functions of both chord programs are interactive I/O and are not part of this model. This covers opening the learning-set file, the `std::cin` loop of the note shifter, and training and testing on the chords.
- Neurons.Error: states only the role guard and the sign, not the float value of the squared error.
- NeuralNetworks.NeuralNetwork.Link: the weight is only known to lie in [-0.5, 0.5], because the random draw is not modelled.
- Undefined behaviour of the C++ code is a precondition:
  - NeuralNetworks.NeuralNetwork.ConnectionExists and NeuralNetworks.NeuralNetwork.SetConnectionWeight require the source neuron to exist, since otherwise the C++ code follows a null pointer. A missing destination is allowed: it compares unequal to every connection end.
  - NeuralNetworks.NeuralNetwork.ConnectAllLayers requires at least one layer, since otherwise `std::prev` steps before the beginning of the layer list.
  - NeuralNetworks.NeuralNetwork.SetBiasNeurons requires at least two layers. Its loop starts at `std::next(begin())` and stops at `std::prev(end())`. With one layer it starts at `end()`, never meets the stop and dereferences `end()`; with none, `std::next` and `std::prev` leave the list.
  - NeuralNetworks.NeuralNetwork.SetInputs and NeuralNetworks.NeuralNetwork.SetDesiredOutputs require a layer to exist when the value list is empty, since the size check then passes and the first or last layer of an empty list is dereferenced.
  - NeuralNetworks.NeuralNetwork.ComputeOutputs and NeuralNetworks.NeuralNetwork.Process require one layer.
- `connect` on a network with no layers is modelled faithfully: `getNumberOfLayers() - 1` wraps to 2^32 - 1 in `unsigned`, which is the value of `LastLayer`. The layer and index arguments of the checked operations are 32-bit unsigned (`Unsigned`). Other counts are unbounded.
- ChordsRecognition: notes, chords and lines must have the shape whose absence the C++ code does not handle:
  - every note token is a run of digits, possibly after white space, with a value below 24;
  - a chord splits into at least one item and its last item is a known composition (an unknown one writes out of bounds);
  - a data line has at least two `;`-parts.
- ChordsRecognition.Decodable: `ChordName`, `DecodedRoot` and `DecodedComposition` require an output vector longer than 12 whose first maximum after slot 11 has a composition name. A vector of 12 slots or fewer makes `outputs.begin()+12` and the later dereference of `max_element` undefined (main.cpp:161-169). A vector longer than 16 whose maximum lies past slot 15 indexes `chordCompositions` out of bounds (main.cpp:167-168).
- Tokens.Stoi: `std::stoi` also accepts a sign and reports out-of-range values by an exception. The model reads only unsigned digit runs, and the callers require tokens of that form.
- IncreaseNotes.Increasable: a data line's number items must be digit runs with values below 2^31 - 1, because `stoi` throws above `int` range and adding one to the largest `int` overflows.
- Behaviour of the C++ code the model keeps:
  - the initial weight lies in the closed interval [-0.5, 0.5], since `rand()` can return `RAND_MAX`;
  - `process` does not refresh the bias neurons (only training does);
  - `process` still computes the outputs after a refused input vector of the wrong size;
  - an unknown chord root is not an error: `find` returns the end, index 12, and the first composition slot is set HIGH;
  - the note shifter carries its own copy of `split`.
