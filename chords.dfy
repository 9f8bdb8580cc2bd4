/** The chord-recognition example's learning-set codec: a line
    `notes ; chord` of the learning set, such as `0-4-7-10 ; C_7`, becomes a
    learning point whose input vector marks the listed notes among 24 slots and
    whose output vector marks the chord's root among 12 slots and its
    composition among 4 more; an output vector is read back as a chord name. */
module ChordsRecognition {
  import opened Tokens
  import NeuralNetworks

  const Roots: seq<string> := ["C", "Db", "D", "Eb", "E", "F", "Gb", "G", "Ab", "A", "Bb", "B"]
  const Compositions: seq<string> := ["7", "maj7", "m7", "m7b5"]

  const InputNeurons: nat := 24
  const OutputNeurons: nat := 16

  const Low: real := -0.5
  const High: real := 0.5

  // ---------------------------------------------------------------------------
  // Notes

  /** Every note of the notes field is a number `std::stoi` reads and that
      indexes one of the 24 input slots. */
  predicate NotesWellFormed(notes: string)
  {
    var tokens := Items(notes, '-');
    forall k :: 0 <= k < |tokens| ==> IsNumeral(tokens[k]) && Stoi(tokens[k]) < InputNeurons
  }

  /** The note numbers of the notes field, in order. */
  function NoteNumbers(notes: string): (ns: seq<nat>)
    requires NotesWellFormed(notes)
    ensures |ns| == |Items(notes, '-')|
    ensures forall k :: 0 <= k < |ns| ==> ns[k] == Stoi(Items(notes, '-')[k]) && ns[k] < InputNeurons
  {
    var tokens := Items(notes, '-');
    seq(|tokens|, k requires 0 <= k < |tokens| => Stoi(tokens[k]))
  }

  /** v with the first n listed slots set to High, one after the other. */
  function Marked(v: seq<real>, slots: seq<nat>, n: nat): (r: seq<real>)
    requires n <= |slots| && forall k :: 0 <= k < |slots| ==> slots[k] < |v|
    ensures |r| == |v|
  {
    if n == 0 then v else Marked(v, slots, n - 1)[slots[n - 1] := High]
  }

  /** A slot of a marked vector is High when it is among the first n listed
      and keeps its value otherwise. */
  lemma {:induction false} MarkedSlots(v: seq<real>, slots: seq<nat>, n: nat)
    requires n <= |slots| && forall k :: 0 <= k < |slots| ==> slots[k] < |v|
    ensures forall i :: 0 <= i < |v| ==> Marked(v, slots, n)[i] == (if i in slots[..n] then High else v[i])
  {
    if n > 0 {
      assert slots[..n] == slots[..n - 1] + [slots[n - 1]];
      MarkedSlots(v, slots, n - 1);
    }
  }

  /** The input vector of a notes field: all Low but the listed notes. */
  function NotesInput(notes: string): (v: seq<real>)
    requires NotesWellFormed(notes)
    ensures |v| == InputNeurons
  {
    Marked(seq(InputNeurons, _ => Low), NoteNumbers(notes), |NoteNumbers(notes)|)
  }

  /** `parseNotesIntoInput` makes a vector of 24 slots in which slot i is High
      exactly when i is one of the notes, and Low otherwise. */
  lemma NotesInputSlots(notes: string)
    requires NotesWellFormed(notes)
    ensures |NotesInput(notes)| == InputNeurons
    ensures forall i :: 0 <= i < InputNeurons ==> (NotesInput(notes)[i] == High <==> i in NoteNumbers(notes))
    ensures forall i :: 0 <= i < InputNeurons ==> (NotesInput(notes)[i] == Low <==> i !in NoteNumbers(notes))
  {
    MarkedSlots(seq(InputNeurons, _ => Low), NoteNumbers(notes), |NoteNumbers(notes)|);
    assert NoteNumbers(notes)[..|NoteNumbers(notes)|] == NoteNumbers(notes);
  }

  /** Writing note numbers as a notes field and parsing it gives them back. */
  lemma NotesRoundTrip(ns: seq<nat>)
    requires forall k :: 0 <= k < |ns| ==> ns[k] < InputNeurons
    ensures NotesWellFormed(Join(Decimals(ns), '-'))
    ensures NoteNumbers(Join(Decimals(ns), '-')) == ns
  {
    var ds := Decimals(ns);
    forall k | 0 <= k < |ds| ensures '-' !in ds[k] {
      assert forall j :: 0 <= j < |ds[k]| ==> IsDigit(ds[k][j]);
    }
    ItemsOfJoin(ds, '-');
    forall k | 0 <= k < |ds| ensures IsNumeral(ds[k]) && Stoi(ds[k]) == ns[k] {
      StoiDecimal(ns[k], []);
      assert ds[k] + [] == ds[k];
    }
  }

  /** A fresh vector of n slots, each set to Low one by one. */
  method LowSlots(n: nat) returns (slots: array<real>)
    ensures fresh(slots)
    ensures slots[..] == seq(n, _ => Low)
  {
    slots := new real[n];
    for i := 0 to n
      invariant forall j :: 0 <= j < i ==> slots[j] == Low
    {
      slots[i] := Low;
    }
  }

  /** The loop of `parseNotesIntoInput` that sets the slot of every note
      number to High; ns are the numbers the notes denote. */
  method MarkNotes(slots: array<real>, splitNotes: seq<string>, ghost ns: seq<nat>)
    requires |ns| == |splitNotes|
    requires forall k :: 0 <= k < |ns| ==> IsNumeral(splitNotes[k]) && Stoi(splitNotes[k]) == ns[k] && ns[k] < slots.Length
    modifies slots
    ensures slots[..] == Marked(old(slots[..]), ns, |ns|)
  {
    ghost var v := slots[..];
    for k := 0 to |splitNotes|
      invariant slots[..] == Marked(v, ns, k)
    {
      var noteNumber := Stoi(splitNotes[k]);
      assert noteNumber == ns[k];
      ghost var before := slots[..];
      slots[noteNumber] := High;
      assert slots[..] == before[noteNumber := High];
    }
  }

  /** `parseNotesIntoInput`: fills a vector of 24 slots with Low, then sets
      the slot of every note number to High. */
  method ParseNotesIntoInput(notes: string) returns (inputs: seq<real>)
    requires NotesWellFormed(notes)
    ensures inputs == NotesInput(notes)
  {
    var slots := LowSlots(InputNeurons);
    var splitNotes := Split(notes, '-');
    MarkNotes(slots, splitNotes, NoteNumbers(notes));
    inputs := slots[..];
  }

  // ---------------------------------------------------------------------------
  // Chords

  /** `std::find` followed by `std::distance`: the position of the first
      occurrence of s in names, or |names| when there is none. */
  function IndexOf(names: seq<string>, s: string): (k: nat)
    ensures k <= |names|
    ensures k < |names| ==> names[k] == s
    ensures forall j :: 0 <= j < k ==> names[j] != s
  {
    if names == [] then 0
    else if names[0] == s then 0
    else 1 + IndexOf(names[1..], s)
  }

  /** A chord the program can encode without writing out of bounds: it has at
      least one `_`-item, and its last item is a known composition. (An
      unknown root is not caught: it lands on slot 12.) */
  predicate ChordWellFormed(chord: string)
  {
    var parts := Items(chord, '_');
    |parts| > 0 && IndexOf(Compositions, parts[|parts| - 1]) < |Compositions|
  }

  function RootNumber(chord: string): (r: nat)
    requires ChordWellFormed(chord)
    ensures r <= |Roots|
  {
    IndexOf(Roots, Items(chord, '_')[0])
  }

  function CompositionNumber(chord: string): (c: nat)
    requires ChordWellFormed(chord)
    ensures c < |Compositions|
  {
    var parts := Items(chord, '_');
    IndexOf(Compositions, parts[|parts| - 1])
  }

  /** The output vector of a chord: all Low but the root's slot and the
      composition's slot (12 + its number). */
  function ChordOutput(chord: string): (v: seq<real>)
    requires ChordWellFormed(chord)
    ensures |v| == OutputNeurons
  {
    ChordVector(RootNumber(chord), CompositionNumber(chord))
  }

  /** The 16-slot vector with root slot r and composition c marked. */
  function ChordVector(r: nat, c: nat): (v: seq<real>)
    requires r <= |Roots| && c < |Compositions|
    ensures |v| == OutputNeurons
  {
    seq(OutputNeurons, _ => Low)[r := High][|Roots| + c := High]
  }

  lemma ChordVectorSlots(r: nat, c: nat)
    requires r <= |Roots| && c < |Compositions|
    ensures |ChordVector(r, c)| == OutputNeurons
    ensures forall i :: 0 <= i < OutputNeurons ==> (ChordVector(r, c)[i] == High <==> i == r || i == |Roots| + c)
    ensures forall i :: 0 <= i < OutputNeurons ==> (ChordVector(r, c)[i] == Low <==> i != r && i != |Roots| + c)
  {
  }

  /** `parseChordsIntoOutput` marks exactly the root slot and the composition
      slot of a 16-slot vector. */
  lemma ChordOutputSlots(chord: string)
    requires ChordWellFormed(chord)
    ensures |ChordOutput(chord)| == OutputNeurons
    ensures forall i :: 0 <= i < OutputNeurons ==>
      (ChordOutput(chord)[i] == High <==> i == RootNumber(chord) || i == |Roots| + CompositionNumber(chord))
    ensures forall i :: 0 <= i < OutputNeurons ==>
      (ChordOutput(chord)[i] == Low <==> i != RootNumber(chord) && i != |Roots| + CompositionNumber(chord))
  {
    ChordVectorSlots(RootNumber(chord), CompositionNumber(chord));
  }

  /** No root or composition name contains `_`, and none is empty. */
  lemma NamesWithoutSeparator()
    ensures forall r :: 0 <= r < |Roots| ==> '_' !in Roots[r] && Roots[r] != ""
    ensures forall c :: 0 <= c < |Compositions| ==> '_' !in Compositions[c] && Compositions[c] != ""
  {
  }

  lemma NamesDistinct()
    ensures forall i, j :: 0 <= i < j < |Roots| ==> Roots[i] != Roots[j]
    ensures forall i, j :: 0 <= i < j < |Compositions| ==> Compositions[i] != Compositions[j]
  {
  }

  /** The items of `R_C` are R and C. */
  lemma ChordItems(r: nat, c: nat)
    requires r < |Roots| && c < |Compositions|
    ensures Items(Roots[r] + "_" + Compositions[c], '_') == [Roots[r], Compositions[c]]
  {
    NamesWithoutSeparator();
    var xs := [Roots[r], Compositions[c]];
    assert Join(xs, '_') == Roots[r] + "_" + Compositions[c] by {
      assert xs[..1] == [Roots[r]];
    }
    ItemsOfJoin(xs, '_');
  }

  /** For a known root R and composition C, `R_C` is encoded with slot
      index(R) and slot 12 + index(C) marked. */
  lemma ChordOutputOf(r: nat, c: nat)
    requires r < |Roots| && c < |Compositions|
    ensures var chord := Roots[r] + "_" + Compositions[c];
      ChordWellFormed(chord) && RootNumber(chord) == r && CompositionNumber(chord) == c
  {
    ChordItems(r, c);
    ItemsNumbers(Roots[r] + "_" + Compositions[c], r, c);
  }

  /** A chord whose items are root r and composition c has those numbers. */
  lemma ItemsNumbers(chord: string, r: nat, c: nat)
    requires r < |Roots| && c < |Compositions|
    requires Items(chord, '_') == [Roots[r], Compositions[c]]
    ensures ChordWellFormed(chord) && RootNumber(chord) == r && CompositionNumber(chord) == c
  {
    NamesDistinct();
  }

  /** An unknown root is not rejected: its slot is number 12, the first
      composition slot, so `H_maj7` marks slots 12 and 13. */
  lemma UnknownRoot(chord: string)
    requires ChordWellFormed(chord) && Items(chord, '_')[0] !in Roots
    ensures RootNumber(chord) == |Roots|
    ensures ChordOutput(chord)[|Roots|] == High
  {
  }

  /** `parseChordsIntoOutput`: fills a vector of 16 slots with Low, splits the
      chord on `_`, and marks the slot of its first item among the roots and
      the slot of its last item among the compositions. */
  method ParseChordsIntoOutput(chord: string) returns (outputs: seq<real>)
    requires ChordWellFormed(chord)
    ensures outputs == ChordOutput(chord)
  {
    var slots := LowSlots(OutputNeurons);
    var splitChord := Split(chord, '_');
    var rootNumber := IndexOf(Roots, splitChord[0]);
    var compNumber := IndexOf(Compositions, splitChord[|splitChord| - 1]);
    ghost var parts := Items(chord, '_');
    assert splitChord[|splitChord| - 1] == parts[|parts| - 1];
    assert rootNumber == RootNumber(chord) && compNumber == CompositionNumber(chord);
    ghost var low := slots[..];
    slots[rootNumber] := High;
    slots[|Roots| + compNumber] := High;
    outputs := slots[..];
    assert outputs == low[rootNumber := High][|Roots| + compNumber := High];
  }

  // ---------------------------------------------------------------------------
  // Reading an output vector back

  /** `std::max_element` on s[lo..hi]: the position of the first largest
      element. */
  function FirstMax(s: seq<real>, lo: nat, hi: nat): (k: nat)
    requires lo < hi <= |s|
    ensures lo <= k < hi
    ensures forall j :: lo <= j < hi ==> s[j] <= s[k]
    ensures forall j :: lo <= j < k ==> s[j] < s[k]
    decreases hi - lo
  {
    if lo + 1 == hi then lo
    else
      var k := FirstMax(s, lo + 1, hi);
      if s[lo] >= s[k] then lo else k
  }

  /** The certainty of an output value: 0 at Low, 1 at High, and between
      the two for a value between them. */
  function Certainty(x: real): (c: real)
    ensures x == Low ==> c == 0.0
    ensures x == High ==> c == 1.0
    ensures Low <= x <= High ==> 0.0 <= c <= 1.0
  {
    (x - Low) / (High - Low)
  }

  /** An output vector the program can read back: something after the root
      slots, and its first maximum there names a composition. */
  predicate Decodable(outputs: seq<real>)
  {
    |Roots| < |outputs| && FirstMax(outputs, |Roots|, |outputs|) - |Roots| < |Compositions|
  }

  /** The root and composition the vector points at. */
  function DecodedRoot(outputs: seq<real>): (r: nat)
    requires Decodable(outputs)
    ensures r < |Roots|
  {
    FirstMax(outputs, 0, |Roots|)
  }

  function DecodedComposition(outputs: seq<real>): (c: nat)
    requires Decodable(outputs)
    ensures c < |Compositions|
  {
    FirstMax(outputs, |Roots|, |outputs|) - |Roots|
  }

  /** `convertOutputVectorToChordName`: the name of the first largest root
      slot, `_`, and the name of the first largest composition slot; the
      certainty is the mean of the two slots' certainties, capped at 1. */
  function ChordName(outputs: seq<real>): (r: (string, real))
    requires Decodable(outputs)
    ensures r.0 == Roots[DecodedRoot(outputs)] + "_" + Compositions[DecodedComposition(outputs)]
    ensures Items(r.0, '_') == [Roots[DecodedRoot(outputs)], Compositions[DecodedComposition(outputs)]]
    ensures var mean := (Certainty(outputs[DecodedRoot(outputs)]) + Certainty(outputs[|Roots| + DecodedComposition(outputs)])) / 2.0;
      r.1 == if mean > 1.0 then 1.0 else mean
    ensures r.1 <= 1.0
  {
    var root := DecodedRoot(outputs);
    var composition := DecodedComposition(outputs);
    ChordItems(root, composition);
    var certainty := (Certainty(outputs[root]) + Certainty(outputs[|Roots| + composition])) / 2.0;
    (Roots[root] + "_" + Compositions[composition], if certainty > 1.0 then 1.0 else certainty)
  }

  /** Encoding a chord and then decoding its vector gives the chord back,
      with full certainty. */
  lemma ChordRoundTrip(r: nat, c: nat)
    requires r < |Roots| && c < |Compositions|
    ensures var chord := Roots[r] + "_" + Compositions[c];
      ChordWellFormed(chord) && Decodable(ChordOutput(chord)) && ChordName(ChordOutput(chord)) == (chord, 1.0)
  {
    var chord := Roots[r] + "_" + Compositions[c];
    ChordOutputOf(r, c);
    ChordVectorSlots(r, c);
    var v := ChordOutput(chord);
    FirstMaxAt(v, 0, |Roots|, r);
    FirstMaxAt(v, |Roots|, |v|, |Roots| + c);
  }

  /** The first maximum of a range is the position of its unique largest
      element. */
  lemma FirstMaxAt(s: seq<real>, lo: nat, hi: nat, k: nat)
    requires lo <= k < hi <= |s|
    requires forall j :: lo <= j < hi && j != k ==> s[j] < s[k]
    ensures FirstMax(s, lo, hi) == k
  {
    var m := FirstMax(s, lo, hi);
    assert s[k] <= s[m];
  }

  /** Decoding a vector and encoding the name gives the vector that marks
      exactly the first largest root slot and the first largest composition
      slot of the original (ChordVectorSlots reads it slot by slot). */
  lemma NameRoundTrip(outputs: seq<real>)
    requires Decodable(outputs)
    ensures ChordWellFormed(ChordName(outputs).0)
    ensures ChordOutput(ChordName(outputs).0)
      == ChordVector(FirstMax(outputs, 0, |Roots|), FirstMax(outputs, |Roots|, |outputs|) - |Roots|)
  {
    ItemsNumbers(ChordName(outputs).0, DecodedRoot(outputs), DecodedComposition(outputs));
  }

  // ---------------------------------------------------------------------------
  // Lines

  /** The line with every space removed. */
  function WithoutSpaces(line: string): (r: string)
    ensures ' ' !in r
    ensures |r| <= |line|
    decreases |line|
  {
    if line == [] then []
    else
      var rest := WithoutSpaces(line[1..]);
      if line[0] == ' ' then rest else [line[0]] + rest
  }

  lemma {:induction false} WithoutSpacesFree(line: string)
    requires ' ' !in line
    ensures WithoutSpaces(line) == line
    decreases |line|
  {
    if line != [] {
      WithoutSpacesFree(line[1..]);
      assert line == [line[0]] + line[1..];
    }
  }

  /** Removing spaces twice is removing them once. */
  lemma WithoutSpacesIdempotent(line: string)
    ensures WithoutSpaces(WithoutSpaces(line)) == WithoutSpaces(line)
  {
    WithoutSpacesFree(WithoutSpaces(line));
  }

  /** A data line the program parses without an out-of-bounds access or a
      `std::stoi` failure: after removing spaces it has two `;`-items, a valid
      notes field and a valid chord. */
  predicate LineWellFormed(line: string)
  {
    IsDataLine(line) ==>
      var parts := Items(WithoutSpaces(line), ';');
      |parts| >= 2 && NotesWellFormed(parts[0]) && ChordWellFormed(parts[1])
  }

  /** The learning point of a line: empty for a blank or comment line,
      otherwise the vectors of the notes and the chord of the space-free
      line. */
  function LinePoint(line: string): NeuralNetworks.LearningPoint
    requires LineWellFormed(line)
  {
    if !IsDataLine(line) then NeuralNetworks.LearningPoint([], [])
    else
      var parts := Items(WithoutSpaces(line), ';');
      NeuralNetworks.LearningPoint(NotesInput(parts[0]), ChordOutput(parts[1]))
  }

  /** A line gives an empty point exactly when it is blank or a comment, and
      a data line gives vectors of 24 and 16 slots. */
  lemma LinePointShape(line: string)
    requires LineWellFormed(line)
    ensures LinePoint(line).inputs == [] <==> !IsDataLine(line)
    ensures LinePoint(line).outputs == [] <==> !IsDataLine(line)
    ensures IsDataLine(line) ==> |LinePoint(line).inputs| == InputNeurons && |LinePoint(line).outputs| == OutputNeurons
  {
    if IsDataLine(line) {
      var parts := Items(WithoutSpaces(line), ';');
      assert LinePoint(line) == NeuralNetworks.LearningPoint(NotesInput(parts[0]), ChordOutput(parts[1]));
    }
  }

  lemma WithoutSpacesHead(line: string)
    requires line != [] && line[0] != ' '
    ensures WithoutSpaces(line) != [] && WithoutSpaces(line)[0] == line[0]
  {
  }

  /** Spaces do not matter in a data line: it is parsed as its space-free
      version. */
  lemma LinePointWithoutSpaces(line: string)
    requires LineWellFormed(line) && IsDataLine(line)
    ensures IsDataLine(WithoutSpaces(line)) && LineWellFormed(WithoutSpaces(line))
    ensures LinePoint(WithoutSpaces(line)) == LinePoint(line)
  {
    WithoutSpacesHead(line);
    WithoutSpacesIdempotent(line);
  }

  /** The loop that builds `lineWithoutSpaces`. */
  method RemoveSpaces(line: string) returns (result: string)
    ensures result == WithoutSpaces(line)
  {
    result := [];
    for i := 0 to |line|
      invariant result == WithoutSpaces(line[..i])
    {
      WithoutSpacesSnoc(line[..i], line[i]);
      assert line[..i + 1] == line[..i] + [line[i]];
      if line[i] != ' ' {
        result := result + [line[i]];
      }
    }
    assert line[..|line|] == line;
  }

  /** Removing the spaces of a line one character longer. */
  lemma {:induction false} WithoutSpacesSnoc(s: string, c: char)
    ensures WithoutSpaces(s + [c]) == WithoutSpaces(s) + (if c == ' ' then [] else [c])
    decreases |s|
  {
    if s == [] {
      assert [c][1..] == [];
    } else {
      WithoutSpacesSnoc(s[1..], c);
      assert (s + [c])[1..] == s[1..] + [c];
    }
  }


  /** `parseLineIntoLearningPoint`. */
  method ParseLineIntoLearningPoint(line: string) returns (point: NeuralNetworks.LearningPoint)
    requires LineWellFormed(line)
    ensures point == LinePoint(line)
  {
    if |line| == 0 || line[0] == ' ' || line[0] == '\n' {
      return NeuralNetworks.LearningPoint([], []);
    }
    if line[0] == '#' {
      return NeuralNetworks.LearningPoint([], []);
    }
    var lineWithoutSpaces := RemoveSpaces(line);
    var lineParts := Split(lineWithoutSpaces, ';');
    var inputs := ParseNotesIntoInput(lineParts[0]);
    var outputs := ParseChordsIntoOutput(lineParts[1]);
    point := NeuralNetworks.LearningPoint(inputs, outputs);
  }

  // ---------------------------------------------------------------------------
  // The learning set

  predicate AllWellFormed(lines: seq<string>)
  {
    forall k :: 0 <= k < |lines| ==> LineWellFormed(lines[k])
  }

  lemma AllWellFormedAppend(a: seq<string>, b: seq<string>)
    requires AllWellFormed(a) && AllWellFormed(b)
    ensures AllWellFormed(a + b)
  {
    forall k | 0 <= k < |a + b| ensures LineWellFormed((a + b)[k]) {
      if k < |a| { assert (a + b)[k] == a[k]; } else { assert (a + b)[k] == b[k - |a|]; }
    }
  }

  /** The point of every line, in order. */
  function Points(lines: seq<string>): (ps: seq<NeuralNetworks.LearningPoint>)
    requires AllWellFormed(lines)
    ensures |ps| == |lines| && forall k :: 0 <= k < |lines| ==> ps[k] == LinePoint(lines[k])
  {
    seq(|lines|, k requires 0 <= k < |lines| && AllWellFormed(lines) => LinePoint(lines[k]))
  }

  predicate IsNonEmpty(p: NeuralNetworks.LearningPoint)
  {
    p.inputs != [] && p.outputs != []
  }

  /** The points whose vectors are both non-empty, in order. */
  function NonEmpty(points: seq<NeuralNetworks.LearningPoint>): (r: seq<NeuralNetworks.LearningPoint>)
    ensures forall k :: 0 <= k < |r| ==> IsNonEmpty(r[k])
    decreases |points|
  {
    if points == [] then []
    else
      var n := |points| - 1;
      NonEmpty(points[..n]) + (if IsNonEmpty(points[n]) then [points[n]] else [])
  }

  lemma {:induction false} NonEmptyAppend(p: seq<NeuralNetworks.LearningPoint>, q: seq<NeuralNetworks.LearningPoint>)
    ensures NonEmpty(p + q) == NonEmpty(p) + NonEmpty(q)
    decreases |q|
  {
    if q == [] {
      assert p + q == p;
    } else {
      var n := |q| - 1;
      NonEmptyAppend(p, q[..n]);
      assert (p + q)[..|p + q| - 1] == p + q[..n];
    }
  }

  /** `parseFileIntoLearningSet` over the lines of the file: the points of the
      lines, keeping the non-empty ones. */
  function LearningSetOf(lines: seq<string>): seq<NeuralNetworks.LearningPoint>
    requires AllWellFormed(lines)
  {
    NonEmpty(Points(lines))
  }

  /** The learning set of a file is the learning sets of its parts, one after
      the other: the lines keep their order. */
  lemma LearningSetOfAppend(a: seq<string>, b: seq<string>)
    requires AllWellFormed(a) && AllWellFormed(b)
    ensures AllWellFormed(a + b)
    ensures LearningSetOf(a + b) == LearningSetOf(a) + LearningSetOf(b)
  {
    AllWellFormedAppend(a, b);
    assert Points(a + b) == Points(a) + Points(b) by {
      forall k | 0 <= k < |a + b| ensures (a + b)[k] == (a + b)[k] {}
    }
    NonEmptyAppend(Points(a), Points(b));
  }

  /** A single line contributes its point exactly when it is a data line. */
  lemma LearningSetOfLine(line: string)
    requires LineWellFormed(line)
    ensures AllWellFormed([line])
    ensures LearningSetOf([line]) == if IsDataLine(line) then [LinePoint(line)] else []
  {
    LinePointShape(line);
    var p := LinePoint(line);
    assert Points([line]) == [p];
    assert [p][..0] == [];
    assert NonEmpty([p]) == NonEmpty([]) + (if IsNonEmpty(p) then [p] else []);
  }

  /** Every point of the learning set has 24 inputs and 16 outputs. */
  lemma LearningSetShape(lines: seq<string>)
    requires AllWellFormed(lines)
    ensures forall k :: 0 <= k < |LearningSetOf(lines)| ==>
      |LearningSetOf(lines)[k].inputs| == InputNeurons && |LearningSetOf(lines)[k].outputs| == OutputNeurons
  {
    var ps := Points(lines);
    NonEmptyMembers(ps);
    forall k | 0 <= k < |NonEmpty(ps)|
      ensures |NonEmpty(ps)[k].inputs| == InputNeurons && |NonEmpty(ps)[k].outputs| == OutputNeurons
    {
      var j :| 0 <= j < |ps| && NonEmpty(ps)[k] == ps[j];
      LinePointShape(lines[j]);
    }
  }

  /** The filter keeps some of the points and makes up none. */
  lemma {:induction false} NonEmptyMembers(points: seq<NeuralNetworks.LearningPoint>)
    ensures forall k :: 0 <= k < |NonEmpty(points)| ==> exists j :: 0 <= j < |points| && NonEmpty(points)[k] == points[j]
    decreases |points|
  {
    if points != [] {
      var n := |points| - 1;
      var front := NonEmpty(points[..n]);
      NonEmptyMembers(points[..n]);
      assert NonEmpty(points) == front + (if IsNonEmpty(points[n]) then [points[n]] else []);
      forall k | 0 <= k < |NonEmpty(points)|
        ensures exists j :: 0 <= j < |points| && NonEmpty(points)[k] == points[j]
      {
        if k < |front| {
          var j :| 0 <= j < n && front[k] == points[..n][j];
          assert 0 <= j < |points| && NonEmpty(points)[k] == points[j];
        } else {
          assert 0 <= n < |points| && NonEmpty(points)[k] == points[n];
        }
      }
    } else {
      assert NonEmpty(points) == [];
    }
  }

  /** The filtering loop of `parseFileIntoLearningSet`, over the lines of the
      file. */
  method ParseLinesIntoLearningSet(lines: seq<string>) returns (result: seq<NeuralNetworks.LearningPoint>)
    requires AllWellFormed(lines)
    ensures result == LearningSetOf(lines)
  {
    result := [];
    for k := 0 to |lines|
      invariant AllWellFormed(lines[..k])
      invariant result == NonEmpty(Points(lines)[..k])
    {
      var point := ParseLineIntoLearningPoint(lines[k]);
      assert Points(lines)[..k + 1][..k] == Points(lines)[..k];
      if point.inputs != [] && point.outputs != [] {
        result := result + [point];
      }
    }
    assert Points(lines)[..|lines|] == Points(lines);
  }
}
