/**
 * The label decoder, `numbers2labels` in src/features.py.
 *
 * Class ids become BIO labels: id 0 is `NON-ENTITY`; a non-zero id is `I-<name>`
 * when it continues a run of the same id and `B-<name>` when it starts one. An id
 * that is not in the class table raises `KeyError`, modelled as a `Failure`.
 */
module LabelCodec {
  import opened Wrappers

  /** The label of id 0, and the one class the colour map does not split into tags. */
  const NonEntity := "NON-ENTITY"

  /** The class table `_map`. */
  const ClassNames: map<int, string> := map[0 := NonEntity, 1 := "LOCATION", 2 := "PERSON", 4 := "MISC"]

  /** The exception the lookup in `_map` raises. */
  datatype DecodeError = KeyError(id: int)

  /** The first position whose id is not in the class table, if any. */
  function FirstUnknown(numbers: seq<int>): (r: Option<nat>)
    ensures r.None? <==> forall i :: 0 <= i < |numbers| ==> numbers[i] in ClassNames
    ensures r.Some? ==> r.value < |numbers| && numbers[r.value] !in ClassNames
    ensures r.Some? ==> forall i :: 0 <= i < r.value ==> numbers[i] in ClassNames
  {
    if numbers == [] then None
    else if numbers[0] !in ClassNames then Some(0)
    else match FirstUnknown(numbers[1..])
      case None => None
      case Some(k) => Some(k + 1)
  }

  /** An unknown id with only known ids before it is the first unknown one. */
  lemma FirstUnknownAt(numbers: seq<int>, i: nat)
    requires i < |numbers| && numbers[i] !in ClassNames
    requires forall j :: 0 <= j < i ==> numbers[j] in ClassNames
    ensures FirstUnknown(numbers) == Some(i)
  {
  }

  /**
   * The label of position `i`, given that its id is known: the class name for id 0,
   * `I-` when the previous id is the same non-zero id, `B-` otherwise.
   */
  function LabelAt(numbers: seq<int>, i: nat): string
    requires i < |numbers| && numbers[i] in ClassNames
  {
    var name := ClassNames[numbers[i]];
    if numbers[i] == 0 then name
    else if i > 0 && numbers[i - 1] == numbers[i] then "I-" + name
    else "B-" + name
  }

  /** The closed form of the decoder: the labels position by position, or the first unknown id. */
  function Decoded(numbers: seq<int>): Result<seq<string>, DecodeError>
  {
    match FirstUnknown(numbers)
    case Some(k) => Failure(KeyError(numbers[k]))
    case None => Success(seq(|numbers|, i requires 0 <= i < |numbers| => LabelAt(numbers, i)))
  }

  /**
   * `numbers2labels(numbers)`: walks the ids, remembering the last non-zero id in
   * `lastNumber` (reset to `None` by a 0), and appends one label per id.
   */
  method NumbersToLabels(numbers: seq<int>) returns (r: Result<seq<string>, DecodeError>)
    ensures r == Decoded(numbers)
  {
    var result: seq<string> := [];
    var lastNumber: Option<int> := None;
    var i := 0;
    while i < |numbers|
      invariant 0 <= i <= |numbers|
      invariant forall j :: 0 <= j < i ==> numbers[j] in ClassNames
      invariant |result| == i
      invariant forall j :: 0 <= j < i ==> result[j] == LabelAt(numbers, j)
      invariant lastNumber == if i > 0 && numbers[i - 1] != 0 then Some(numbers[i - 1]) else None
    {
      var number := numbers[i];
      if number == 0 {
        lastNumber := None;
        result := result + [ClassNames[number]];
      } else {
        if lastNumber != Some(number) {
          lastNumber := Some(number);
          if number !in ClassNames {
            r := Failure(KeyError(number));
            FirstUnknownAt(numbers, i);
            return;
          }
          assert LabelAt(numbers, i) == "B-" + ClassNames[number];
          result := result + ["B-" + ClassNames[number]];
        } else {
          // the same id was looked up at the previous position, so it is known
          assert i > 0 && numbers[i - 1] == number;
          assert LabelAt(numbers, i) == "I-" + ClassNames[number];
          result := result + ["I-" + ClassNames[number]];
        }
      }
      i := i + 1;
    }
    assert result == seq(|numbers|, j requires 0 <= j < |numbers| => LabelAt(numbers, j));
    r := Success(result);
  }

  /** A tagged label starts with its tag and ends with the class name. */
  lemma TaggedParts(tag: string, name: string)
    requires |tag| == 2
    ensures (tag + name)[..2] == tag && (tag + name)[2..] == name
  {
  }

  /** Labels of different kinds never coincide: their first characters differ. */
  lemma TagsDiffer(x: string, y: string)
    ensures "I-" + x != "B-" + y && "I-" + x != NonEntity
  {
    assert ("I-" + x)[0] == 'I' && ("B-" + y)[0] == 'B' && NonEntity[0] == 'N';
  }

  /**
   * Decoding succeeds exactly when every id is in the class table; otherwise the
   * error carries the first id that is not.
   */
  lemma DecodedFails(numbers: seq<int>)
    ensures Decoded(numbers).Failure? <==> exists i :: 0 <= i < |numbers| && numbers[i] !in ClassNames
    ensures Decoded(numbers).Failure? ==>
      (exists k :: 0 <= k < |numbers| && numbers[k] !in ClassNames && Decoded(numbers).error == KeyError(numbers[k])
        && forall j :: 0 <= j < k ==> numbers[j] in ClassNames)
  {
  }

  /**
   * One label per id: `NON-ENTITY` for id 0; for any other id, `I-<name>` exactly
   * when the previous id is the same, and `B-<name>` exactly when it is not.
   */
  lemma DecodedLabels(numbers: seq<int>, i: nat)
    requires Decoded(numbers).Success? && i < |numbers|
    ensures |Decoded(numbers).value| == |numbers| && numbers[i] in ClassNames
    ensures numbers[i] == 0 ==> Decoded(numbers).value[i] == NonEntity
    ensures numbers[i] != 0 ==>
      (Decoded(numbers).value[i] == "I-" + ClassNames[numbers[i]] <==> i > 0 && numbers[i - 1] == numbers[i])
    ensures numbers[i] != 0 ==>
      (Decoded(numbers).value[i] == "B-" + ClassNames[numbers[i]] <==> !(i > 0 && numbers[i - 1] == numbers[i]))
  {
    var name := ClassNames[numbers[i]];
    TaggedParts("I-", name);
    TaggedParts("B-", name);
  }

  /** Every `I-X` label directly follows a `B-X` or an `I-X` label. */
  lemma InsideFollowsRun(numbers: seq<int>, i: nat, x: string)
    requires Decoded(numbers).Success? && i < |Decoded(numbers).value|
    requires Decoded(numbers).value[i] == "I-" + x
    ensures i > 0 && (Decoded(numbers).value[i - 1] == "B-" + x || Decoded(numbers).value[i - 1] == "I-" + x)
  {
    var labels := Decoded(numbers).value;
    TaggedParts("I-", x);
    assert labels[i] == LabelAt(numbers, i);
    var name := ClassNames[numbers[i]];
    TagsDiffer(x, name);
    if numbers[i] == 0 {
      assert false;
    }
    TaggedParts("I-", name);
    if !(i > 0 && numbers[i - 1] == numbers[i]) {
      assert false;
    }
    assert x == name;
    assert labels[i - 1] == LabelAt(numbers, i - 1);
  }

  /** A run of one class, a new class, a reset by 0 and a new run of the first class. */
  lemma DecodeRuns()
    ensures Decoded([1, 1, 2, 0, 1]) ==
      Success(["B-LOCATION", "I-LOCATION", "B-PERSON", "NON-ENTITY", "B-LOCATION"])
  {
    var ns := [1, 1, 2, 0, 1];
    assert FirstUnknown(ns) == None;
    var labels := Decoded(ns).value;
    assert labels[0] == LabelAt(ns, 0) == "B-LOCATION";
    assert labels[1] == LabelAt(ns, 1) == "I-LOCATION";
    assert labels[2] == LabelAt(ns, 2) == "B-PERSON";
    assert labels[3] == LabelAt(ns, 3) == "NON-ENTITY";
    assert labels[4] == LabelAt(ns, 4) == "B-LOCATION";
    assert labels == ["B-LOCATION", "I-LOCATION", "B-PERSON", "NON-ENTITY", "B-LOCATION"];
  }

  /** Two different classes side by side each begin a run. */
  lemma DecodeAdjacentClasses()
    ensures Decoded([1, 2]) == Success(["B-LOCATION", "B-PERSON"])
  {
    var ns := [1, 2];
    assert FirstUnknown(ns) == None;
    var labels := Decoded(ns).value;
    assert labels[0] == LabelAt(ns, 0) == "B-LOCATION";
    assert labels[1] == LabelAt(ns, 1) == "B-PERSON";
    assert labels == ["B-LOCATION", "B-PERSON"];
  }

  /** Id 3 is not in the class table. */
  lemma DecodeUnknown()
    ensures Decoded([1, 3]) == Failure(KeyError(3))
  {
  }

  /** No ids, no labels. */
  lemma DecodeEmpty()
    ensures Decoded([]) == Success([])
  {
    assert FirstUnknown([]) == None;
    assert Decoded([]).value == [];
  }
}
