/**
 * The agile classifier wrapper: a causal language model, the class labels and
 * the prompt settings, fixed at construction, with the candidate-token scorer
 * built over the labels.
 */
module AgileModelWrapper {
  import opened Wrappers
  import AgileTextProcessing
  import TP = TokenProbability

  /** `_DEFAULT_PROMPT`, the default instructions. */
  const DefaultPrompt: string := "Classify the following text into one of the following classes"

  /** Default value of the `end_of_text_token` parameter. */
  const DefaultEndOfText: string := "<eos>"

  // ---------------------------------------------------------------------------
  // Batching of the training records
  // ---------------------------------------------------------------------------

  /** The batches laid end to end. */
  function Flatten(batches: seq<seq<string>>): seq<string>
    decreases |batches|
  {
    if |batches| == 0 then [] else batches[0] + Flatten(batches[1..])
  }

  /**
   * `Dataset.from_tensor_slices(records).batch(n)`: consecutive batches of n
   * records in order, the last one holding the remainder.
   */
  function Batches(records: seq<string>, n: nat): (r: seq<seq<string>>)
    requires n > 0
    ensures Flatten(r) == records
    ensures forall i :: 0 <= i < |r| ==> 0 < |r[i]| <= n
    ensures forall i :: 0 <= i < |r| - 1 ==> |r[i]| == n
    decreases |records|
  {
    if |records| == 0 then []
    else if |records| <= n then
      FlattenCons(records, []);
      [records]
    else
      var rest := Batches(records[n..], n);
      FlattenCons(records[..n], rest);
      assert records[..n] + records[n..] == records;
      [records[..n]] + rest
  }

  /** Flattening a batch followed by more batches. */
  /** Batches of one record: one batch per record, in order. */
  lemma {:induction false} BatchesOfOne(records: seq<string>)
    ensures |Batches(records, 1)| == |records|
    ensures forall i :: 0 <= i < |records| ==> Batches(records, 1)[i] == [records[i]]
    decreases |records|
  {
    if |records| > 1 {
      BatchesOfOne(records[1..]);
      var rest := Batches(records[1..], 1);
      assert Batches(records, 1) == [records[..1]] + rest;
      assert records[..1] == [records[0]];
      forall i | 1 <= i < |records| ensures Batches(records, 1)[i] == [records[i]] {
        assert Batches(records, 1)[i] == rest[i - 1];
        assert records[i] == records[1..][i - 1];
      }
    } else if |records| == 1 {
      assert Batches(records, 1) == [records];
      assert records == [records[0]];
    }
  }

  lemma FlattenCons(batch: seq<string>, rest: seq<seq<string>>)
    ensures Flatten([batch] + rest) == batch + Flatten(rest)
  {
    assert ([batch] + rest)[1..] == rest;
  }

  /** The agile classifier; every field is assigned once, by the constructor. */
  class AgileClassifier {
    const model: TP.CausalLM
    const labels: seq<string>
    const instructions: string
    const separatorToken: string
    const endOfTextToken: string
    const probabilityModel: TP.TokenProbabilityModel

    /** The scorer is the one `build_token_probability_model` builds over the labels. */
    ghost predicate Valid()
    {
      && probabilityModel.layer.tokenSetIdx == TP.TokenIds(model.tokenToId, labels)
      && forall inputs :: probabilityModel.forward(inputs) == model.forward(inputs)
    }

    /** `__init__` with every parameter given. */
    constructor (model: TP.CausalLM, labels: seq<string>, instructions: string, separatorToken: string, endOfTextToken: string)
      ensures this.model == model && this.labels == labels && this.instructions == instructions
      ensures this.separatorToken == separatorToken && this.endOfTextToken == endOfTextToken
      ensures probabilityModel == TP.BuildTokenProbabilityModel(model, labels)
      ensures Valid()
    {
      this.model := model;
      this.labels := labels;
      this.instructions := instructions;
      this.separatorToken := separatorToken;
      this.endOfTextToken := endOfTextToken;
      this.probabilityModel := TP.BuildTokenProbabilityModel(model, labels);
    }

    /** `__init__` with the default instructions, separator and end-of-text token. */
    constructor WithDefaults(model: TP.CausalLM, labels: seq<string>)
      ensures this.model == model && this.labels == labels && instructions == DefaultPrompt
      ensures separatorToken == AgileTextProcessing.DefaultSeparator && endOfTextToken == DefaultEndOfText
      ensures probabilityModel == TP.BuildTokenProbabilityModel(model, labels)
      ensures Valid()
    {
      this.model := model;
      this.labels := labels;
      this.instructions := DefaultPrompt;
      this.separatorToken := AgileTextProcessing.DefaultSeparator;
      this.endOfTextToken := DefaultEndOfText;
      this.probabilityModel := TP.BuildTokenProbabilityModel(model, labels);
    }

    /**
     * `_encode_for_prediction`: the prompt for the stored labels, instructions
     * and separator, from which the text can be read back.
     */
    function EncodeForPrediction(xText: string): (r: string)
      ensures AgileTextProcessing.ExtractText(r, labels, instructions, separatorToken) == Some(xText)
      ensures instructions <= r
      ensures |r| >= 11 && r[|r| - 11..] == "Prediction:"
    {
      AgileTextProcessing.ExtractTextInvertsBuildPrompt(xText, labels, instructions, separatorToken);
      AgileTextProcessing.BuildPromptFrame(xText, labels, instructions, separatorToken);
      AgileTextProcessing.BuildPrompt(xText, labels, instructions, separatorToken)
    }

    /**
     * `_encode_for_training`: the prediction prompt followed directly by the
     * label and the end-of-text token, with nothing in between.
     */
    function EncodeForTraining(xText: string, yLabel: string): (r: string)
      ensures var p := EncodeForPrediction(xText);
        p <= r && r[|p|..] == yLabel + endOfTextToken
    {
      var p := EncodeForPrediction(xText);
      assert (p + yLabel + endOfTextToken)[|p|..] == yLabel + endOfTextToken;
      p + yLabel + endOfTextToken
    }

    /** A training record determines its text and a label of known length. */
    lemma EncodeForTrainingDeterminesExample(x1: string, y1: string, x2: string, y2: string)
      requires EncodeForTraining(x1, y1) == EncodeForTraining(x2, y2) && |y1| == |y2|
      ensures x1 == x2 && y1 == y2
    {
      var r := EncodeForTraining(x1, y1);
      var p1, p2 := EncodeForPrediction(x1), EncodeForPrediction(x2);
      assert |p1| == |p2|;
      assert p1 == r[..|p1|] == p2;
      assert y1 + endOfTextToken == y2 + endOfTextToken;
      assert y1 == (y1 + endOfTextToken)[..|y1|];
    }

    /**
     * The records `fit` builds: record i from the i-th text and label, up to
     * the shorter of the two lists, as two-argument `map` pairs them.
     */
    function TrainingRecords(xTrain: seq<string>, yTrain: seq<string>): (records: seq<string>)
      ensures |records| == if |xTrain| <= |yTrain| then |xTrain| else |yTrain|
      ensures forall i :: 0 <= i < |records| ==> records[i] == EncodeForTraining(xTrain[i], yTrain[i])
      decreases |xTrain|
    {
      if |xTrain| == 0 || |yTrain| == 0 then []
      else
        var rest := TrainingRecords(xTrain[1..], yTrain[1..]);
        [EncodeForTraining(xTrain[0], yTrain[0])] + rest
    }

    /**
     * The dataset `fit` hands to the model: the training records in batches
     * of `batch_size`; a batch size below one is an error.
     */
    function FitDataset(xTrain: seq<string>, yTrain: seq<string>, batchSize: int := 1): (r: Option<seq<seq<string>>>)
      ensures r.None? <==> batchSize < 1
      ensures r.Some? ==> Flatten(r.value) == TrainingRecords(xTrain, yTrain)
      ensures r.Some? ==> forall i :: 0 <= i < |r.value| ==> 0 < |r.value[i]| <= batchSize
      ensures r.Some? ==> forall i :: 0 <= i < |r.value| - 1 ==> |r.value[i]| == batchSize
    {
      if batchSize < 1 then None else Some(Batches(TrainingRecords(xTrain, yTrain), batchSize))
    }

    /** With the default batch size every training record is a batch of its own. */
    lemma FitDefaultBatchesEachRecord(xTrain: seq<string>, yTrain: seq<string>)
      ensures var records := TrainingRecords(xTrain, yTrain);
        var d := FitDataset(xTrain, yTrain);
        d.Some? && |d.value| == |records| && forall i :: 0 <= i < |records| ==> d.value[i] == [records[i]]
    {
      BatchesOfOne(TrainingRecords(xTrain, yTrain));
    }

    /** The prompts `predict_score` builds: one per text, in input order. */
    function Prompts(xText: seq<string>): (ps: seq<string>)
      ensures |ps| == |xText|
      ensures forall i :: 0 <= i < |xText| ==> ps[i] == EncodeForPrediction(xText[i])
      ensures forall i :: 0 <= i < |xText| ==>
        AgileTextProcessing.ExtractText(ps[i], labels, instructions, separatorToken) == Some(xText[i])
      decreases |xText|
    {
      if |xText| == 0 then []
      else [EncodeForPrediction(xText[0])] + Prompts(xText[1..])
    }

    /** The preprocessed batch for some texts. */
    function Inputs(xText: seq<string>): TP.Batch
    {
      model.generatePreprocess(Prompts(xText))
    }

    /**
     * The preprocessor gives one row per prompt, and the scorer accepts the
     * preprocessed batch (see `TokenProbability.CallReady`).
     */
    predicate ScoreReady(xText: seq<string>)
    {
      && |Inputs(xText).paddingMask| == |Prompts(xText)|
      && probabilityModel.Ready(Inputs(xText))
    }

    /**
     * `predict_score`: per text, a distribution over the labels, in label
     * order, from the model's logits of the labels' ids.
     */
    function PredictScore(xText: seq<string>, exp: real -> TP.Positive): (r: seq<seq<real>>)
      requires Valid() && ScoreReady(xText)
      ensures |r| == |xText|
      ensures forall b :: 0 <= b < |r| ==> |r[b]| == |labels| && TP.Sum(r[b]) == 1.0
      ensures forall b :: 0 <= b < |r| ==>
        r[b] == TP.Softmax(TP.Candidates(model.forward(Inputs(xText))[b][TP.RowZeroOffset(Inputs(xText).paddingMask)],
                                         TP.TokenIds(model.tokenToId, labels)), exp)
    {
      probabilityModel.Predict(Inputs(xText), exp)
    }

    /**
     * `predict`: one label per text, the label at the first highest score of
     * the text's score row; every prediction is one of the labels.
     */
    function Predict(xText: seq<string>, exp: real -> TP.Positive): (r: seq<string>)
      requires Valid() && ScoreReady(xText)
      ensures var scores := PredictScore(xText, exp);
        |r| == |xText| && |r| == |scores| && forall b :: 0 <= b < |r| ==> r[b] in labels && r[b] == labels[Argmax(scores[b])]
    {
      PickLabels(labels, PredictScore(xText, exp))
    }

    /**
     * With an increasing exponential, each prediction is the label whose
     * candidate logit is the first highest: the softmax does not change the winner.
     */
    lemma PredictFollowsLogits(xText: seq<string>, exp: real -> TP.Positive, b: nat)
      requires Valid() && ScoreReady(xText) && TP.StrictlyIncreasing(exp)
      requires b < |xText|
      ensures var inputs := Inputs(xText);
        var v := TP.Candidates(model.forward(inputs)[b][TP.RowZeroOffset(inputs.paddingMask)], TP.TokenIds(model.tokenToId, labels));
        |v| == |labels| > 0 && Predict(xText, exp)[b] == labels[Argmax(v)]
    {
      var inputs := Inputs(xText);
      var v := TP.Candidates(model.forward(inputs)[b][TP.RowZeroOffset(inputs.paddingMask)], TP.TokenIds(model.tokenToId, labels));
      assert |v| == |labels| > 0;
      ArgmaxOfSoftmax(v, exp);
    }
  }

  // ---------------------------------------------------------------------------
  // Argmax
  // ---------------------------------------------------------------------------

  /** `numpy.argmax` of one row: the index of the first highest entry. */
  function Argmax(row: seq<real>): (i: nat)
    requires |row| > 0
    ensures i < |row|
    ensures forall j :: 0 <= j < |row| ==> row[j] <= row[i]
    ensures forall j :: 0 <= j < i ==> row[j] < row[i]
    decreases |row|
  {
    if |row| == 1 then 0
    else
      var k := Argmax(row[1..]);
      assert forall j :: 1 <= j < |row| ==> row[j] == row[1..][j - 1];
      if row[0] >= row[1 + k] then 0 else 1 + k
  }

  /** An index that is a highest entry and has only lower entries before it is the argmax. */
  lemma ArgmaxUnique(row: seq<real>, i: nat)
    requires i < |row|
    requires forall j :: 0 <= j < |row| ==> row[j] <= row[i]
    requires forall j :: 0 <= j < i ==> row[j] < row[i]
    ensures Argmax(row) == i
  {
  }

  /** `[labels[i] for i in argmax(scores, axis=1)]`: the label at each row's first highest score. */
  function PickLabels(labels: seq<string>, scores: seq<seq<real>>): (r: seq<string>)
    requires forall b :: 0 <= b < |scores| ==> |scores[b]| == |labels|
    requires |labels| > 0
    ensures |r| == |scores|
    ensures forall b :: 0 <= b < |r| ==> r[b] in labels && r[b] == labels[Argmax(scores[b])]
  {
    seq(|scores|, b requires 0 <= b < |scores| => assert |scores[b]| == |labels|; labels[Argmax(scores[b])])
  }

  /** A softmax with an increasing exponential keeps the argmax of its row. */
  lemma ArgmaxOfSoftmax(v: seq<real>, exp: real -> TP.Positive)
    requires |v| > 0 && TP.StrictlyIncreasing(exp)
    ensures Argmax(TP.Softmax(v, exp)) == Argmax(v)
  {
    var s := TP.Softmax(v, exp);
    var k := Argmax(v);
    forall j | 0 <= j < |s| ensures s[j] <= s[k] {
      TP.SoftmaxPreservesOrder(v, exp, j, k);
    }
    forall j | 0 <= j < k ensures s[j] < s[k] {
      TP.SoftmaxPreservesOrder(v, exp, j, k);
    }
    ArgmaxUnique(s, k);
  }
}
