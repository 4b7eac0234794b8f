/**
 * Merging what the processing steps of a document found, field by field
 * (src/document_processors/processor_pipeline.py).
 */
module FieldMerge {
  import opened Text

  /** `Empty` is a missing value, an empty text, list or mapping. */
  datatype Value = Empty | Filled(content: string)

  /** What one step found; a confidence that is not given is one half. */
  datatype Found = Found(data: map<string, Value>, confidences: map<string, real>, evidence: map<string, string>)

  datatype Entry = Entry(value: Value, confidence: real, evidence: Option<string>)

  /** What a step has to say about a field. */
  function Offer(found: Found, key: string): (o: Option<Entry>)
    ensures o.Some? ==> o.value.value.Filled?
  {
    if key !in found.data || found.data[key].Empty? then None
    else Some(Entry(found.data[key],
                    if key in found.confidences then found.confidences[key] else 0.5,
                    if key in found.evidence then Some(found.evidence[key]) else None))
  }

  /** A later offer wins if it is at least as confident. */
  function Take(before: Option<Entry>, offer: Option<Entry>): Option<Entry> {
    if offer.Some? && (before.None? || offer.value.confidence >= before.value.confidence) then offer else before
  }

  function At<T>(m: map<string, T>, key: string): Option<T> {
    if key in m then Some(m[key]) else None
  }

  /** The fields of a document while its steps run. */
  class Processed {
    var data: map<string, Value>
    var confidences: map<string, real>
    var evidence: map<string, string>
    var ocrText: string

    ghost predicate Valid()
      reads this
    {
      && data.Keys == confidences.Keys && evidence.Keys <= data.Keys
      && forall key :: key in data ==> data[key].Filled?
    }

    /** All that is known about a field. */
    ghost function Field(key: string): Option<Entry>
      requires Valid()
      reads this
    {
      if key in data then Some(Entry(data[key], confidences[key], At(evidence, key))) else None
    }

    constructor ()
      ensures Valid() && ocrText == "" && forall key :: Field(key) == None
    {
      data, confidences, evidence, ocrText := map[], map[], map[], "";
    }

    method MergeExtractedData(found: Found)
      requires Valid()
      modifies this
      ensures Valid() && ocrText == old(ocrText)
      ensures forall key :: Field(key) == Take(old(Field(key)), Offer(found, key))
    {
      var todo := found.data.Keys;
      while todo != {}
        invariant Valid() && ocrText == old(ocrText) && todo <= found.data.Keys
        invariant forall key :: Field(key) ==
                    if key in todo then old(Field(key)) else Take(old(Field(key)), Offer(found, key))
        decreases |todo|
      {
        var key :| key in todo;
        MergeField(found, key);
        todo := todo - {key};
      }
    }

    /** The body of the loop over the fields. */
    method MergeField(found: Found, key: string)
      requires Valid() && key in found.data
      modifies this`data, this`confidences, this`evidence
      ensures Valid()
      ensures Field(key) == Take(old(Field(key)), Offer(found, key))
      ensures forall other :: other != key ==> Field(other) == old(Field(other))
    {
      var value := found.data[key];
      if value.Empty? {
        return;
      }
      var existing := if key in confidences then confidences[key] else 0.0;
      var incoming := if key in found.confidences then found.confidences[key] else 0.5;
      if key !in data || incoming >= existing {
        data := data[key := value];
        confidences := confidences[key := incoming];
        if key in found.evidence {
          evidence := evidence[key := found.evidence[key]];
        } else {
          evidence := evidence - {key};
        }
      }
    }

    /** Runs the steps; false when recognition failed without any text. */
    method ProcessDocument(steps: seq<Step>, extract: string -> Found) returns (ok: bool)
      requires Valid() && ocrText == "" && forall key :: Field(key) == None
      modifies this
      ensures Valid()
      ensures ok <==> Completed(steps) == |steps|
      ensures forall key :: Field(key) == Fold(MergedBy(steps[..Completed(steps)], extract), key)
      ensures ocrText == TextAfter(steps[..Completed(steps)])
    {
      assert steps[..0] == [];
      for i := 0 to |steps|
        invariant Valid() && ocrText == TextAfter(steps[..i]) && !FailsWithin(steps, i)
        invariant forall key :: Field(key) == Fold(MergedBy(steps[..i], extract), key)
      {
        var step := steps[i];
        StepMerges(steps, i, extract);
        if Fails(step) {
          FirstFailure(steps, i);
          return false;
        }
        RunStep(step, extract);
      }
      NoFailure(steps, |steps|);
      assert steps[..|steps|] == steps;
      ok := true;
    }

    /** The body of the loop over the steps. */
    method RunStep(step: Step, extract: string -> Found)
      requires Valid() && !Fails(step)
      modifies this
      ensures Valid() && ocrText == TextAfterStep(old(ocrText), step)
      ensures forall key :: Field(key) == FoldFrom(old(Field(key)), Contributions(step, old(ocrText), extract), key)
    {
      match step {
        case Preprocess =>
        case Recognize(text, error, found) =>
          ocrText := text;
          MergeExtractedData(found);
          MergeExtractedData(Extracted(extract, ocrText));
          forall key ensures Field(key) == FoldFrom(old(Field(key)), [found, Extracted(extract, text)], key) {
            FoldTwo(old(Field(key)), found, Extracted(extract, text), key);
          }
        case FromText(process) =>
          MergeExtractedData(Extracted(process, ocrText));
        case Other(text, found) =>
          MergeExtractedData(found);
          if text != "" {
            ocrText := text;
          }
      }
    }
  }

  // ------------------------------------------------------------------------------------------
  // The steps of the pipeline
  // ------------------------------------------------------------------------------------------

  /** Preprocessing finds nothing; template and line-item steps read the recognized text. */
  datatype Step =
    | Preprocess
    | Recognize(text: string, error: bool, found: Found)
    | FromText(process: string -> Found)
    | Other(text: string, found: Found)

  function Extracted(process: string -> Found, text: string): Found {
    process(text)
  }

  predicate Fails(step: Step) {
    step.Recognize? && step.error && Strip(step.text) == ""
  }

  /** How many steps run to their end. */
  function Completed(steps: seq<Step>): (n: nat)
    ensures n <= |steps|
  {
    if steps == [] || Fails(steps[0]) then 0 else 1 + Completed(steps[1..])
  }

  predicate FailsWithin(steps: seq<Step>, n: nat)
    requires n <= |steps|
  {
    exists i :: 0 <= i < n && Fails(steps[i])
  }

  lemma {:induction false} NoFailure(steps: seq<Step>, n: nat)
    requires n <= |steps| && !FailsWithin(steps, n)
    ensures Completed(steps) >= n
  {
    if n > 0 {
      assert !Fails(steps[0]);
      assert forall i :: 0 <= i < n - 1 ==> steps[1..][i] == steps[i + 1];
      NoFailure(steps[1..], n - 1);
    }
  }

  lemma {:induction false} FirstFailure(steps: seq<Step>, n: nat)
    requires n < |steps| && !FailsWithin(steps, n) && Fails(steps[n])
    ensures Completed(steps) == n
  {
    if n > 0 {
      assert !Fails(steps[0]);
      assert forall i :: 0 <= i < n ==> steps[1..][i] == steps[i + 1];
      FirstFailure(steps[1..], n - 1);
    }
  }

  function TextAfterStep(text: string, step: Step): string {
    if step.Recognize? || (step.Other? && step.text != "") then step.text else text
  }

  function TextAfter(steps: seq<Step>): string {
    if steps == [] then "" else TextAfterStep(TextAfter(steps[..|steps| - 1]), steps[|steps| - 1])
  }

  /** What a step contributes, in the order of merging. */
  function Contributions(step: Step, text: string, extract: string -> Found): seq<Found> {
    match step
    case Preprocess => []
    case Recognize(recognized, _, found) => [found, Extracted(extract, recognized)]
    case FromText(process) => [Extracted(process, text)]
    case Other(_, found) => [found]
  }

  function MergedBy(steps: seq<Step>, extract: string -> Found): seq<Found> {
    if steps == [] then []
    else
      var n := |steps| - 1;
      MergedBy(steps[..n], extract) + Contributions(steps[n], TextAfter(steps[..n]), extract)
  }

  lemma StepMerges(steps: seq<Step>, i: nat, extract: string -> Found)
    requires i < |steps|
    ensures TextAfter(steps[..i + 1]) == TextAfterStep(TextAfter(steps[..i]), steps[i])
    ensures forall key :: Fold(MergedBy(steps[..i + 1], extract), key)
              == FoldFrom(Fold(MergedBy(steps[..i], extract), key),
                  Contributions(steps[i], TextAfter(steps[..i]), extract), key)
  {
    assert steps[..i + 1][..i] == steps[..i];
    var before, more := MergedBy(steps[..i], extract), Contributions(steps[i], TextAfter(steps[..i]), extract);
    forall key ensures Fold(before + more, key) == FoldFrom(Fold(before, key), more, key) {
      FoldConcat(None, before, more, key);
    }
  }

  // ------------------------------------------------------------------------------------------
  // The winner of a field
  // ------------------------------------------------------------------------------------------

  function FoldFrom(start: Option<Entry>, results: seq<Found>, key: string): Option<Entry> {
    if results == [] then start
    else Take(FoldFrom(start, results[..|results| - 1], key), Offer(results[|results| - 1], key))
  }

  /** What merging the results one after another leaves for a field. */
  function Fold(results: seq<Found>, key: string): Option<Entry> {
    FoldFrom(None, results, key)
  }

  lemma {:induction false} FoldConcat(start: Option<Entry>, a: seq<Found>, b: seq<Found>, key: string)
    ensures FoldFrom(start, a + b, key) == FoldFrom(FoldFrom(start, a, key), b, key)
  {
    if b == [] {
      assert a + b == a;
    } else {
      var n := |b| - 1;
      assert (a + b)[..|a| + n] == a + b[..n];
      FoldConcat(start, a, b[..n], key);
    }
  }

  lemma FoldTwo(start: Option<Entry>, a: Found, b: Found, key: string)
    ensures FoldFrom(start, [a, b], key) == Take(Take(start, Offer(a, key)), Offer(b, key))
  {
    assert [a, b] == [a] + [b];
    FoldConcat(start, [a], [b], key);
  }

  /** Offered by the result at `k`, no other is more confident, and no later one is as confident. */
  ghost predicate Wins(results: seq<Found>, key: string, k: int) {
    && 0 <= k < |results| && Offer(results[k], key).Some?
    && forall j :: 0 <= j < |results| && Offer(results[j], key).Some? ==>
         var mine, other := Offer(results[k], key).value.confidence, Offer(results[j], key).value.confidence;
         other <= mine && (j > k ==> other < mine)
  }

  lemma {:induction false} FoldWins(results: seq<Found>, key: string) returns (k: int)
    ensures if Fold(results, key).None? then forall j :: 0 <= j < |results| ==> Offer(results[j], key).None?
            else Wins(results, key, k) && Fold(results, key) == Offer(results[k], key)
  {
    k := -1;
    if results != [] {
      var n := |results| - 1;
      k := FoldWins(results[..n], key);
      if Fold(results[..n], key).Some? {
        if Take(Fold(results[..n], key), Offer(results[n], key)) == Offer(results[n], key) && !Wins(results, key, k) {
          k := n;
        }
      } else {
        assert forall j :: 0 <= j < n ==> results[..n][j] == results[j];
        k := n;
      }
    }
  }

  lemma WinnerIsUnique(results: seq<Found>, key: string, k: int, l: int)
    requires Wins(results, key, k) && Wins(results, key, l)
    ensures k == l
  {
  }

  /**
   * A field holds exactly what the last of the most confident non-empty results said, its confidence
   * and its evidence (or lack of it) included; confidences of any sign are allowed.
   */
  lemma MergeIff(results: seq<Found>, key: string, entry: Entry)
    ensures Fold(results, key) == Some(entry) <==>
              exists k :: Wins(results, key, k) && Offer(results[k], key) == Some(entry)
    ensures Fold(results, key) == None <==> forall k :: 0 <= k < |results| ==> Offer(results[k], key).None?
  {
    var k := FoldWins(results, key);
    if l :| Wins(results, key, l) && Offer(results[l], key) == Some(entry) {
      if Fold(results, key).Some? {
        WinnerIsUnique(results, key, k, l);
      }
    }
  }
}
