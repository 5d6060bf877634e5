/**
 * The safety classifier wrapper: the candidate-token scorer over the two
 * answer tokens "Yes" and "No", built once from the model.
 */
module ShieldGemmaWrapper {
  import TP = TokenProbability

  /** The candidate tokens, in column order: column 0 is "Yes". */
  const AnswerTokens: seq<string> := ["Yes", "No"]

  /** The two-entry softmax: each entry's weight against the sum of both weights. */
  lemma SoftmaxOfPair(v: seq<real>, exp: real -> TP.Positive)
    requires |v| == 2
    ensures var s := TP.Softmax(v, exp);
      var total := exp(v[0]) as real + exp(v[1]) as real;
      |s| == 2 && s[0] == exp(v[0]) / total && s[1] == exp(v[1]) / total && s[0] + s[1] == 1.0
  {
    var w := TP.Exps(v, exp);
    assert w[1..][1..] == [];
    assert TP.Sum(w) == w[0] + TP.Sum(w[1..]) == w[0] + (w[1..][0] + TP.Sum(w[1..][1..]));
    var s := TP.Softmax(v, exp);
    assert TP.Sum(s) == s[0] + TP.Sum(s[1..]);
    assert s[1..][1..] == [];
  }

  class ShieldGemma {
    const model: TP.CausalLM
    const probabilityModel: TP.TokenProbabilityModel

    /** The scorer is built over "Yes" then "No" with the model's own tokenizer and forward pass. */
    ghost predicate Valid()
    {
      && probabilityModel.layer.tokenSetIdx == [model.tokenToId("Yes"), model.tokenToId("No")]
      && forall inputs :: probabilityModel.forward(inputs) == model.forward(inputs)
    }

    /** `__init__`: the candidate ids are resolved here, once. */
    constructor (model: TP.CausalLM)
      ensures this.model == model
      ensures probabilityModel == TP.BuildTokenProbabilityModel(model, AnswerTokens)
      ensures Valid()
    {
      this.model := model;
      this.probabilityModel := TP.BuildTokenProbabilityModel(model, AnswerTokens);
    }

    /**
     * The preprocessor gives one row per text, and the scorer accepts the
     * preprocessed batch (see `TokenProbability.CallReady`).
     */
    predicate ScoreReady(xText: seq<string>)
    {
      && |model.generatePreprocess(xText).paddingMask| == |xText|
      && probabilityModel.Ready(model.generatePreprocess(xText))
    }

    /** The logits row b is scored from: its own row, at row 0's last prompt position. */
    function ReadPosition(xText: seq<string>, b: nat): (v: seq<real>)
      requires Valid() && ScoreReady(xText) && b < |xText|
      ensures 0 <= model.tokenToId("Yes") < |v| && 0 <= model.tokenToId("No") < |v|
    {
      var inputs := model.generatePreprocess(xText);
      var mask := inputs.paddingMask;
      var ids := probabilityModel.layer.tokenSetIdx;
      var logits := model.forward(inputs);
      assert TP.CallReady(logits, mask, ids);
      var o := TP.RowZeroOffset(mask);
      assert |logits[b]| == |mask[b]| == |mask[0]| > o;
      assert |logits[b][o]| == |logits[0][0]|;
      assert ids[0] == model.tokenToId("Yes") && ids[1] == model.tokenToId("No");
      logits[b][o]
    }

    /** The "Yes" and "No" logits, in that order, at the position row b is read at. */
    function AnswerLogits(xText: seq<string>, b: nat): (c: seq<real>)
      requires Valid() && ScoreReady(xText) && b < |xText|
      ensures c == TP.Candidates(ReadPosition(xText, b), probabilityModel.layer.tokenSetIdx)
      ensures var v := ReadPosition(xText, b);
        c[0] == v[model.tokenToId("Yes")] && c[1] == v[model.tokenToId("No")]
    {
      var v := ReadPosition(xText, b);
      [v[model.tokenToId("Yes")], v[model.tokenToId("No")]]
    }

    /**
     * `predict_score`: the texts go to the preprocessor as they are (no
     * prompt is built); per row, the softmax of the "Yes" and "No" logits, in
     * that order, which sums to one.
     */
    function PredictScore(xText: seq<string>, exp: real -> TP.Positive): (r: seq<seq<real>>)
      requires Valid() && ScoreReady(xText)
      ensures |r| == |xText|
      ensures forall b :: 0 <= b < |r| ==> |r[b]| == 2 && r[b][0] + r[b][1] == 1.0
      ensures forall b :: 0 <= b < |r| ==> r[b] == TP.Softmax(AnswerLogits(xText, b), exp)
    {
      RowScores(xText, exp);
      probabilityModel.Predict(model.generatePreprocess(xText), exp)
    }

    /** Every row of the scorer's output is the softmax of that row's two answer logits. */
    lemma RowScores(xText: seq<string>, exp: real -> TP.Positive)
      requires Valid() && ScoreReady(xText)
      ensures var r := probabilityModel.Predict(model.generatePreprocess(xText), exp);
        && |r| == |xText|
        && forall b :: 0 <= b < |r| ==>
             r[b] == TP.Softmax(AnswerLogits(xText, b), exp) && |r[b]| == 2 && r[b][0] + r[b][1] == 1.0
    {
      var r := probabilityModel.Predict(model.generatePreprocess(xText), exp);
      forall b | 0 <= b < |r|
        ensures r[b] == TP.Softmax(AnswerLogits(xText, b), exp) && |r[b]| == 2 && r[b][0] + r[b][1] == 1.0
      {
        RowScore(xText, exp, b);
        SoftmaxOfPair(AnswerLogits(xText, b), exp);
      }
    }

    /** Row b of the scorer's output is the softmax of its "Yes" and "No" logits. */
    lemma RowScore(xText: seq<string>, exp: real -> TP.Positive, b: nat)
      requires Valid() && ScoreReady(xText) && b < |xText|
      ensures probabilityModel.Predict(model.generatePreprocess(xText), exp)[b] == TP.Softmax(AnswerLogits(xText, b), exp)
    {
      var inputs := model.generatePreprocess(xText);
      var v := ReadPosition(xText, b);
      var ids := probabilityModel.layer.tokenSetIdx;
      assert v == probabilityModel.forward(inputs)[b][TP.RowZeroOffset(inputs.paddingMask)];
      assert TP.Candidates(v, ids) == AnswerLogits(xText, b);
    }

    /** With an increasing exponential, "Yes" scores higher exactly when its logit is higher. */
    lemma YesOutranksNoIffLogitHigher(xText: seq<string>, exp: real -> TP.Positive, b: nat)
      requires Valid() && ScoreReady(xText) && TP.StrictlyIncreasing(exp)
      requires b < |xText|
      ensures var a := AnswerLogits(xText, b);
        var r := PredictScore(xText, exp);
        r[b][0] > r[b][1] <==> a[0] > a[1]
    {
      var a := AnswerLogits(xText, b);
      assert PredictScore(xText, exp)[b] == TP.Softmax(a, exp);
      TP.SoftmaxPreservesOrder(a, exp, 1, 0);
    }
  }
}
