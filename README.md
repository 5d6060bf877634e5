# Responsible-AI toolkit core, modelled in Dafny

This project models the parts of the toolkit that are plain logic around opaque
language-model calls:

- **The candidate-token scorer** (`TokenProbability`). A causal language model
  produces logits for a batch. The scorer finds the last prompt position from
  the padding mask, keeps only the logits of a fixed list of candidate tokens
  and applies a softmax over those candidates alone. The gather is modelled
  exactly as written: `take(logits, idx, axis=1)[:, 0]` reads **every** row at
  the position computed from row 0's mask.
- **The agile classifier** (`AgileTextProcessing`, `AgileModelWrapper`). It builds
  the classification prompt `instructions:[l1,l2,...]<sep>Text:<text><sep>Prediction:`.
  It also builds the training records, groups them into batches for `fit`, scores
  each text over the label tokens, and turns each score row into the label at
  its first highest score.
- **The safety classifier** (`ShieldTextProcessing`, `ShieldGemmaWrapper`). The
  harm types, use cases and policy table give the harm definition. It is
  substituted with the conversation into one of two fixed templates. The scorer
  compares the "Yes" and "No" tokens, in that order.

Outside the model, as parameters:

| parameter | stands for |
|---|---|
| `TokenProbability.CausalLM.tokenToId` | the tokenizer's lookup |
| `generatePreprocess` | the tokenizer's preprocessor |
| `forward` | the forward pass |
| `exp: real -> Positive` | the softmax's exponential, with real numbers in place of floating point |

The order facts assume only that `exp` is strictly increasing (`StrictlyIncreasing`).

`Text` holds Python's `str.join`; `Wrappers` holds `Option`.

Behaviour of the code that the model keeps, and that a reader may not expect:
- **The gather is not per-row.** The code reads every row at row 0's offset
  (`token_probability.py:15`). It does not read each row at its own last real token.
  - `CallReadsOwnOffsetWhenSumsAgree` proves the per-row reading only when all
    rows have the same mask sum.
  - `ExampleRowOneIsReadAtRowZeroOffset` exhibits a two-row batch where the
    readings differ.
- **No guard for an all-padding row 0.** The code never checks that row 0 has a
  real token, and its offset would then be -1. This is a precondition of the
  model (`MaskReady`), not an error result.
- **`fit` keeps the shorter list.** It pairs texts and labels with two-argument
  `map`, so it truncates to the shorter list instead of failing (`TrainingRecords`).
- **Unknown tokens are not checked.** Candidate ids are resolved once, at
  construction, and nothing checks they are in the vocabulary. Duplicates are
  kept (`DuplicateTokensShareId`). `CallReady` states what the layer needs of
  its ids.

## Model

| member | source | states |
|---|---|---|
| TokenProbability.MaskSum | rgai_tools/common/token_probability.py:13 | on a 0/1 row the mask sum is the number of 1s, between 0 and the row length |
| TokenProbability.CastInt32 | rgai_tools/common/token_probability.py:14 | the int32 cast lands in the 32-bit range and is the identity inside it |
| TokenProbability.LastPromptIndex | rgai_tools/common/token_probability.py:13-14 | one offset per row; on a 0/1 row it is the count of real tokens minus one, from -1 up to below the row length |
| TokenProbability.OffsetIsLastRealTokenWhenRightPadded | rgai_tools/common/token_probability.py:13-14 | with right padding, the offset holds a real token and every later position is padding |
| TokenProbability.OffsetMissesLastRealTokenWhenLeftPadded | rgai_tools/common/token_probability.py:13-14 | with any padding, a row ending in a real token gets an offset before its last real token |
| TokenProbability.Take | rgai_tools/common/token_probability.py:15 | `take(..., axis=1)` gives entry [b][j] = row b at position idx[j] for every pair, negative indices counted from the end |
| TokenProbability.LastLogits | rgai_tools/common/token_probability.py:15 | `[:, 0]` reads every row at idx[0], the offset computed from row 0 |
| TokenProbability.RowZeroOffset | rgai_tools/common/token_probability.py:13-15 | for a ready mask the offset used is a valid position: row 0's number of real tokens minus one |
| TokenProbability.LastLogitsAtRowZeroOffset | rgai_tools/common/token_probability.py:13-15 | every gathered row is that row's logits at row 0's offset, of vocabulary width |
| TokenProbability.Candidates | rgai_tools/common/token_probability.py:16 | entry j of the selected row is the logit of candidate id j, in candidate order |
| TokenProbability.Columns | rgai_tools/common/token_probability.py:16 | one column per candidate id, in order |
| TokenProbability.Stack | rgai_tools/common/token_probability.py:17 | column j becomes entry j of every row |
| TokenProbability.SelectCandidates | rgai_tools/common/token_probability.py:16-17 | after the column list and stack, row b is exactly the candidates of gathered row b |
| TokenProbability.Softmax | rgai_tools/common/token_probability.py:18 | per row: same length, entries in (0, 1] summing to one, entry j = exp(v[j]) over the total |
| TokenProbability.SoftmaxPreservesOrder | rgai_tools/common/token_probability.py:18 | with an increasing exponential the softmax keeps the strict order and the ties of every pair of columns |
| TokenProbability.TokenProbabilityLayer.Call | rgai_tools/common/token_probability.py:12-18 | one row per input row, each with one entry per candidate and summing to one; row b is the softmax of the candidates of row b at row 0's offset |
| TokenProbability.CallReadsOwnOffsetWhenSumsAgree | rgai_tools/common/token_probability.py:13-15 | when every row has row 0's mask sum, the output equals the per-row reading at each row's own offset |
| TokenProbability.SingleRowReadsOwnOffset | rgai_tools/common/token_probability.py:13-15 | a batch of one row is read at its own offset |
| TokenProbability.ShorterRowIsReadAtRowZeroOffset | rgai_tools/common/token_probability.py:15 | a row whose candidates rank oppositely at row 0's offset and at its own gets an output different from the per-row reading |
| TokenProbability.ExampleRowOneIsReadAtRowZeroOffset | rgai_tools/common/token_probability.py:15 | a concrete two-row batch with mask [[1,1],[1,0]] where row 1 differs from the per-row reading |
| TokenProbability.CallIgnoresOtherLogits | rgai_tools/common/token_probability.py:15-18 | logits that agree on the candidate ids at the read position give the same output; every other logit is discarded |
| TokenProbability.CallPreservesCandidateOrder | rgai_tools/common/token_probability.py:16-18 | with an increasing exponential, candidate i scores below candidate j exactly when its logit is lower |
| TokenProbability.TokenIds | rgai_tools/common/token_probability.py:25-26 | one id per token, in token order, each the tokenizer's id of that token |
| TokenProbability.DuplicateTokensShareId | rgai_tools/common/token_probability.py:26 | repeated tokens give the same id and are not rejected |
| TokenProbability.TokenProbabilityModel.Predict | rgai_tools/common/token_probability.py:27-30 | the built model is the forward pass followed by the layer: row b is the softmax of the candidates of the model's logits at row 0's offset |
| TokenProbability.BuildTokenProbabilityModel | rgai_tools/common/token_probability.py:21-30 | the ids are resolved once, in token order, with the model's tokenizer, and the forward pass is the model's |
| Text.JoinLength | rgai_tools/agile_classifier/text_processing.py:7 | joining n parts adds n - 1 separators to the parts' total length |
| AgileTextProcessing.BuildPrompt | rgai_tools/agile_classifier/text_processing.py:1-8 | the prompt is exactly instructions, `:[`, the comma-joined labels, `]`, sep, `Text:`, text, sep, `Prediction:`, for all inputs; the separator defaults to `<separator>` |
| AgileTextProcessing.BuildPromptFrame | rgai_tools/agile_classifier/text_processing.py:7-8 | the prompt starts with the instructions and ends with `Prediction:` |
| AgileTextProcessing.BuildPromptNoLabels | rgai_tools/agile_classifier/text_processing.py:7 | with no labels the first segment is `instructions:[]` |
| AgileTextProcessing.BuildPromptLength | rgai_tools/agile_classifier/text_processing.py:7-8 | the length is the instructions, 3, the labels' lengths, n - 1 commas, two separators, 5, the text and 11 |
| AgileTextProcessing.ExtractTextInvertsBuildPrompt | rgai_tools/agile_classifier/text_processing.py:7-8 | the text is inserted verbatim, whatever it contains: reading it back from the prompt gives it back |
| AgileTextProcessing.ExtractTextOnlyFromPrompts | rgai_tools/agile_classifier/text_processing.py:7-8 | a text is read back only from the prompt built from it |
| AgileTextProcessing.BuildPromptInjective | rgai_tools/agile_classifier/text_processing.py:7-8 | with fixed labels, instructions and separator, different texts give different prompts |
| AgileModelWrapper.AgileClassifier.constructor | rgai_tools/agile_classifier/model_wrapper.py:18-34 | every field is the given argument and the scorer is built over the labels |
| AgileModelWrapper.AgileClassifier.WithDefaults | rgai_tools/agile_classifier/model_wrapper.py:12-34 | the defaults are the default instructions, `<separator>` and `<eos>` |
| AgileModelWrapper.AgileClassifier.EncodeForPrediction | rgai_tools/agile_classifier/model_wrapper.py:36-42 | the prediction prompt uses the stored settings: the text reads back from it, it starts with the instructions and ends with `Prediction:` |
| AgileModelWrapper.AgileClassifier.EncodeForTraining | rgai_tools/agile_classifier/model_wrapper.py:44-45 | the training record is the prediction prompt followed directly by the label and the end-of-text token |
| AgileModelWrapper.AgileClassifier.EncodeForTrainingDeterminesExample | rgai_tools/agile_classifier/model_wrapper.py:44-45 | two records with labels of the same length are equal only for the same text and label |
| AgileModelWrapper.AgileClassifier.TrainingRecords | rgai_tools/agile_classifier/model_wrapper.py:54 | min(|x|, |y|) records; record i encodes x[i] with y[i] |
| AgileModelWrapper.Batches | rgai_tools/agile_classifier/model_wrapper.py:55 | the batches laid end to end are the records; each batch is non-empty and at most n; all but the last are exactly n |
| AgileModelWrapper.AgileClassifier.FitDataset | rgai_tools/agile_classifier/model_wrapper.py:54-55 | a batch size below one is an error; otherwise the training records in batches of that size; the default batch size is 1 |
| AgileModelWrapper.AgileClassifier.FitDefaultBatchesEachRecord | rgai_tools/agile_classifier/model_wrapper.py:51-55 | with the default batch size every training record is a batch of its own, in order |
| AgileModelWrapper.AgileClassifier.Prompts | rgai_tools/agile_classifier/model_wrapper.py:60 | one prompt per text, in input order, each reading back to its text |
| AgileModelWrapper.AgileClassifier.PredictScore | rgai_tools/agile_classifier/model_wrapper.py:58-62 | one row per text, one entry per label summing to one, row b the softmax of the label tokens' logits |
| AgileModelWrapper.Argmax | rgai_tools/agile_classifier/model_wrapper.py:65 | the index of a highest entry with only lower entries before it (first occurrence) |
| AgileModelWrapper.ArgmaxOfSoftmax | rgai_tools/agile_classifier/model_wrapper.py:62-65 | with an increasing exponential, the softmax does not move the argmax |
| AgileModelWrapper.PickLabels | rgai_tools/agile_classifier/model_wrapper.py:65-66 | one label per score row, the one at the row's argmax, always one of the labels |
| AgileModelWrapper.AgileClassifier.Predict | rgai_tools/agile_classifier/model_wrapper.py:64-66 | one prediction per text, each `labels[argmax(row)]` of its score row and so a member of the labels |
| AgileModelWrapper.AgileClassifier.PredictFollowsLogits | rgai_tools/agile_classifier/model_wrapper.py:64-66 | with an increasing exponential, each prediction is the label whose logit is the first highest |
| ShieldTextProcessing.HarmTypeFromName | rgai_tools/shield_gemma/__main__.py:40 | a name is resolved to the member with that name; no member has an unknown name |
| ShieldTextProcessing.HarmTypeNameRoundTrip | rgai_tools/shield_gemma/text_processing.py:4-10 | looking a harm type up by its own name gives it back |
| ShieldTextProcessing.HarmDefinition | rgai_tools/shield_gemma/text_processing.py:53-73 | the quoted harm name, the use case's prefix sentence, a space and the policy, for every harm type and use case |
| ShieldTextProcessing.HarmDefinitionLayout | rgai_tools/shield_gemma/text_processing.py:72-73 | the definition starts with the heading, prefix and space, and the rest is exactly the harm's policy |
| ShieldTextProcessing.HarmDefinitionInjective | rgai_tools/shield_gemma/text_processing.py:24-73 | different harm types or use cases never give the same definition |
| ShieldTextProcessing.Format | rgai_tools/shield_gemma/text_processing.py:146 | formatting succeeds exactly when every field of the template has an argument |
| ShieldTextProcessing.InferUseCase | rgai_tools/shield_gemma/text_processing.py:125-128 | prompt-only exactly when there is no model response; an empty response counts as given |
| ShieldTextProcessing.FormatterArgs | rgai_tools/shield_gemma/text_processing.py:138-144 | user content and harm text are always bound; the model content is bound exactly when given |
| ShieldTextProcessing.FormatTemplates | rgai_tools/shield_gemma/text_processing.py:138-146 | both templates format completely with those arguments, each field replaced verbatim |
| ShieldTextProcessing.ResponseTemplateNeedsModelContent | rgai_tools/shield_gemma/text_processing.py:143-146 | the response template cannot be formatted without a model response |
| ShieldTextProcessing.BuildPrompt | rgai_tools/shield_gemma/text_processing.py:119-146 | the inferred use case's template with the user content, the harm definition for that use case and the response substituted verbatim |
| ShieldTextProcessing.BuildPromptDeterminesUserContent | rgai_tools/shield_gemma/text_processing.py:119-146 | with the harm type fixed, a prompt-only prompt determines its user content |
| ShieldTextProcessing.BuildPromptDeterminesConversation | rgai_tools/shield_gemma/text_processing.py:119-146 | with the harm type fixed and the split point known, a response prompt determines the user content and the response |
| ShieldGemmaWrapper.ShieldGemma.constructor | rgai_tools/shieldgemma/model_wrapper.py:9-14 | the scorer is built once, over "Yes" then "No" |
| ShieldGemmaWrapper.SoftmaxOfPair | rgai_tools/shieldgemma/model_wrapper.py:13 | a two-entry score row is each answer's weight over the sum of both, and the two sum to one |
| ShieldGemmaWrapper.ShieldGemma.AnswerLogits | rgai_tools/shieldgemma/model_wrapper.py:13 | the logits row b is scored from are the built scorer's candidate selection at its read position: the "Yes" logit, then the "No" logit |
| ShieldGemmaWrapper.ShieldGemma.PredictScore | rgai_tools/shieldgemma/model_wrapper.py:16-19 | texts go to the preprocessor unchanged; one row per text, two entries summing to one, the softmax of the "Yes" then the "No" logit |
| ShieldGemmaWrapper.ShieldGemma.YesOutranksNoIffLogitHigher | rgai_tools/shieldgemma/model_wrapper.py:11-19 | with an increasing exponential, "Yes" scores higher than "No" exactly when its logit is higher |

## Left out

- Floating point: the softmax is over real numbers with an abstract, positive exponential. Rounding, overflow and `exp` itself are not modelled.
- The tokenizer, the preprocessor and the model's forward pass are parameters. What the scorer needs of their results is assumed through `ScoreReady` and `CallReady`: one mask row per text, logits of the mask's shape, and candidate ids below the vocabulary width.
- Keras `predict` splits its input into batches of 32 rows, which decides which row is "row 0" of each call. The model applies the layer to the whole preprocessed batch at once.
- `model.fit`, `enable_lora`, `compile` and the optimizer are external training calls. `FitDataset` models only the dataset handed to `fit`.
- `train_agile_classifier` is training configuration on the external model.
- The command-line entry points are I/O, except the harm-type lookup by name (`HarmTypeFromName`). So are the comparison server and the interactive aligner.
- `HARM_POLICIES` is a dictionary with an entry for every harm type, so it is modelled as a total function, `HarmPolicy`.
- The `UseCase` string values (`"prompt_only"`, `"prompt_response"`) are never read by the modelled code, so they are not modelled.
- The `ValueError` branches of `harm_definition` and `build_prompt` cannot be reached with enum values, so the model has no error path for them.
- `TokenProbability.MaskReady` and `TokenProbability.CallReady`: an empty batch, which fails at `[:, 0]`, and an empty candidate list (for example an agile classifier built with no labels), which fails in `stack`, are excluded by precondition. The model has no error result for either.
- `str.format` is modelled only for templates made of literal text and named fields. Brace escapes and format specs do not occur in the two templates.
- AgileModelWrapper.Batches: does not state the number of batches (the ceiling of the record count over n). The count follows from the stated sizes but is not proved.
- ShieldTextProcessing.BuildPromptDeterminesConversation: needs the user contents' lengths to agree. Otherwise a user content containing the template's own middle text could shift the split.
- AgileModelWrapper.AgileClassifier.EncodeForTrainingDeterminesExample: needs the labels' lengths to agree. Otherwise a text containing the separator followed by `Prediction:` can move part of itself into the label: the text `a` + separator + `Prediction:` + `c` with label `b` gives the same record as the text `a` with label `c` + separator + `Prediction:` + `b`.
