/** The note-shifting utility of the chord example: every data line of a
    learning set has each of its note numbers increased by one, and keeps its
    chord; blank and comment lines pass through unchanged. */
module IncreaseNotes {
  import opened Tokens

  /** The largest `int`; `std::stoi` throws above it and adding one to it
      overflows. */
  const IntMax: nat := 0x7FFF_FFFF

  /** The `-`-items of the part before the first `;`. */
  function NumberItems(line: string): seq<string>
    requires line != []
  {
    ItemsNonEmpty(line, ';');
    Items(Items(line, ';')[0], '-')
  }

  /** A data line each of whose number items `std::stoi` can read. */
  predicate HasNumerals(line: string)
  {
    IsDataLine(line) && forall k :: 0 <= k < |NumberItems(line)| ==> IsNumeral(NumberItems(line)[k])
  }

  /** The note numbers of a data line, in order. */
  function NoteValues(line: string): (vs: seq<nat>)
    requires HasNumerals(line)
    ensures |vs| == |NumberItems(line)|
  {
    var items := NumberItems(line);
    seq(|items|, k requires 0 <= k < |items| => Stoi(items[k]))
  }

  /** A line `increaseNumbers` handles without an exception or an overflow:
      when it is a data line, its numbers are numerals below `IntMax`. */
  predicate Increasable(line: string)
  {
    IsDataLine(line) ==> HasNumerals(line) && forall k :: 0 <= k < |NoteValues(line)| ==> NoteValues(line)[k] < IntMax
  }

  function Successors(vs: seq<nat>): seq<nat>
  {
    seq(|vs|, k requires 0 <= k < |vs| => vs[k] + 1)
  }

  /** The last `;`-item of a data line. */
  function ChordPart(line: string): string
    requires line != []
  {
    ItemsNonEmpty(line, ';');
    var parts := Items(line, ';');
    parts[|parts| - 1]
  }

  /** What `increaseNumbers` makes of a line: blank and comment lines are
      returned as they are; a data line becomes its note numbers plus one,
      separated by `-`, then ` ;` and its last `;`-item. */
  function Increased(line: string): string
    requires Increasable(line)
  {
    if !IsDataLine(line) then line
    else Join(Decimals(Successors(NoteValues(line))), '-') + " ;" + ChordPart(line)
  }

  /** ds are the decimals of the numerals plus one. */
  predicate WrittenAs(numbers: seq<string>, ds: seq<string>)
  {
    |ds| == |numbers| && forall k :: 0 <= k < |numbers| ==> IsNumeral(numbers[k]) && ds[k] == Decimal(Stoi(numbers[k]) + 1)
  }

  /** The loop of `increaseNumbers`: each number plus one, followed by `-`
      unless it is the last; `ds` are the decimals it writes. */
  method WriteNumbers(numbers: seq<string>, ghost ds: seq<string>) returns (newNumbers: string)
    requires WrittenAs(numbers, ds)
    ensures newNumbers == Join(ds, '-')
  {
    newNumbers := "";
    for i := 0 to |numbers|
      invariant newNumbers == Join(ds[..i], '-') + (if 0 < i < |numbers| then "-" else "")
    {
      JoinPrefix(ds, i, '-');
      newNumbers := newNumbers + Decimal(Stoi(numbers[i]) + 1);
      if i < |numbers| - 1 {
        newNumbers := newNumbers + "-";
      }
    }
    assert ds[..|numbers|] == ds;
  }

  /** `increaseNumbers`: blank and comment lines are returned at once; a data
      line is rebuilt. */
  method IncreaseNumbers(line: string) returns (result: string)
    requires Increasable(line)
    ensures result == Increased(line)
  {
    if |line| == 0 || line[0] == ' ' || line[0] == '\n' || line[0] == '#' {
      return line;
    }
    result := RebuildLine(line);
  }

  /** The data-line branch of `increaseNumbers`: the line is split on `;`,
      its first part on `-`, and the numbers are written back, then ` ;` and
      the last part. */
  method RebuildLine(line: string) returns (result: string)
    requires HasNumerals(line)
    ensures result == Join(Decimals(Successors(NoteValues(line))), '-') + " ;" + ChordPart(line)
  {
    LineParts(line);
    var lineParts := Split(line, ';');
    var numbers := Split(lineParts[0], '-');
    ghost var ds := Decimals(Successors(NoteValues(line)));
    NumbersReady(line);
    var newNumbers := WriteNumbers(numbers, ds);
    newNumbers := newNumbers + " ;";
    newNumbers := newNumbers + lineParts[|lineParts| - 1];
    return newNumbers;
  }

  /** A non-empty line splits on `;` into at least one part; the first holds
      the number items and the last is the chord part. */
  lemma LineParts(line: string)
    requires line != []
    ensures var parts := Items(line, ';');
      && parts != []
      && Items(parts[0], '-') == NumberItems(line)
      && parts[|parts| - 1] == ChordPart(line)
  {
    ItemsNonEmpty(line, ';');
  }

  /** The number items of an increasable data line are numerals, and the
      decimals written for them are their values plus one. */
  lemma NumbersReady(line: string)
    requires HasNumerals(line)
    ensures WrittenAs(NumberItems(line), Decimals(Successors(NoteValues(line))))
  {
  }

  /** The numbers written back: all digits, none empty, and the last one
      followed by the space before `;`. */
  lemma NumbersField(vs: seq<nat>)
    requires vs != []
    ensures var ds := Decimals(vs); var j := Join(ds, '-');
      && j != [] && IsDigit(j[0])
      && ';' !in j + " "
      && Items(j + " ", '-') == ds[..|ds| - 1] + [ds[|ds| - 1] + " "]
  {
    var ds := Decimals(vs);
    var j := Join(ds, '-');
    forall k | 0 <= k < |ds| ensures '-' !in ds[k] && ';' !in ds[k] {
      assert forall i :: 0 <= i < |ds[k]| ==> IsDigit(ds[k][i]);
    }
    JoinHead(ds, '-');
    JoinWithout(ds, '-', ';');
    JoinExtendLast(ds, '-', " ");
    var es := ds[..|ds| - 1] + [ds[|ds| - 1] + " "];
    assert forall k :: 0 <= k < |es| ==> '-' !in es[k] by {
      forall k | 0 <= k < |es| ensures '-' !in es[k] {
        if k < |ds| - 1 { assert es[k] == ds[k]; }
      }
    }
    ItemsOfJoin(es, '-');
  }

  /** The numbers field read back: its items are numerals of the values. */
  lemma NumbersFieldValues(vs: seq<nat>)
    requires vs != []
    ensures var es := Items(Join(Decimals(vs), '-') + " ", '-');
      |es| == |vs| && forall k :: 0 <= k < |es| ==> IsNumeral(es[k]) && Stoi(es[k]) == vs[k]
  {
    var ds := Decimals(vs);
    NumbersField(vs);
    var es := ds[..|ds| - 1] + [ds[|ds| - 1] + " "];
    forall k | 0 <= k < |es| ensures IsNumeral(es[k]) && Stoi(es[k]) == vs[k] {
      if k < |es| - 1 {
        StoiDecimal(vs[k], []);
        assert es[k] == Decimal(vs[k]) + [];
      } else {
        StoiDecimal(vs[k], " ");
      }
    }
  }

  /** Splitting an output line on `;`: the numbers field, then the chord
      part when it is not empty. */
  lemma OutputParts(vs: seq<nat>, back: string)
    requires vs != [] && ';' !in back
    ensures var j := Join(Decimals(vs), '-');
      Items(j + " ;" + back, ';') == [j + " "] + (if back == "" then [] else [back])
  {
    var j := Join(Decimals(vs), '-');
    NumbersField(vs);
    assert j + " ;" + back == (j + " ") + [';'] + back;
    FieldsAfterFree(j + " ", ';', back);
    FieldsOfFree(back, ';');
  }

  /** A data line whose first `;`-item splits into numerals of vs has the
      note values vs. */
  lemma ValuesOf(line: string, field: string, vs: seq<nat>)
    requires IsDataLine(line)
    requires Items(line, ';') != [] && Items(line, ';')[0] == field
    requires |Items(field, '-')| == |vs|
    requires forall k :: 0 <= k < |vs| ==> IsNumeral(Items(field, '-')[k]) && Stoi(Items(field, '-')[k]) == vs[k]
    ensures HasNumerals(line) && NoteValues(line) == vs
  {
    assert NumberItems(line) == Items(field, '-');
  }

  /** An output line with at least one number is a data line whose numbers
      are the given values. */
  lemma OutputLine(vs: seq<nat>, back: string)
    requires vs != [] && ';' !in back
    ensures var out := Join(Decimals(vs), '-') + " ;" + back;
      HasNumerals(out) && NoteValues(out) == vs
  {
    var j := Join(Decimals(vs), '-');
    var out := j + " ;" + back;
    NumbersField(vs);
    assert out[0] == j[0];
    OutputParts(vs, back);
    NumbersFieldValues(vs);
    ValuesOf(out, j + " ", vs);
  }

  /** Increasing a data line keeps the number of notes, adds one to each of
      them, and keeps the chord (the last `;`-item) as the only other item. */
  lemma IncreasedRoundTrip(line: string)
    requires Increasable(line) && IsDataLine(line) && NoteValues(line) != []
    ensures HasNumerals(Increased(line))
    ensures |NoteValues(Increased(line))| == |NoteValues(line)|
    ensures forall k :: 0 <= k < |NoteValues(line)| ==> NoteValues(Increased(line))[k] == NoteValues(line)[k] + 1
    ensures Items(Increased(line), ';')[1..] == if ChordPart(line) == "" then [] else [ChordPart(line)]
  {
    ItemsNonEmpty(line, ';');
    ItemsFree(line, ';');
    OutputLine(Successors(NoteValues(line)), ChordPart(line));
    OutputParts(Successors(NoteValues(line)), ChordPart(line));
  }

  /** A data line without note numbers (one starting with `;`) becomes ` ;`
      and its chord, which the next pass reads as a blank line. */
  lemma NoNumbers(line: string)
    requires Increasable(line) && IsDataLine(line) && NoteValues(line) == []
    ensures Increased(line) == " ;" + ChordPart(line)
    ensures !IsDataLine(Increased(line))
  {
    assert Decimals(Successors(NoteValues(line))) == [];
    var out := " ;" + ChordPart(line);
    assert Increased(line) == out;
    assert out[0] == ' ';
  }

  /** A line comes back unchanged exactly when it is blank or a comment. */
  lemma IncreasedChanges(line: string)
    requires Increasable(line)
    ensures Increased(line) == line <==> !IsDataLine(line)
  {
    if IsDataLine(line) {
      if NoteValues(line) == [] {
        assert Increased(line)[0] == ' ';
      } else {
        IncreasedRoundTrip(line);
        assert NoteValues(Increased(line))[0] != NoteValues(line)[0];
      }
    }
  }
}
