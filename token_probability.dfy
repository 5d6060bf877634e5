/**
 * The token-probability scorer: from a causal language model's logits and
 * padding mask, read the logits at the last prompt position, keep only the
 * candidate tokens' columns (in candidate order) and apply a softmax over
 * those columns alone.
 */
module TokenProbability {

  /** Logits indexed by (row, position, vocabulary id). */
  type Logits = seq<seq<seq<real>>>

  /** Padding mask indexed by (row, position): 1 marks a real token, 0 padding. */
  type Mask = seq<seq<int>>

  /** The preprocessor's output: token ids and the padding mask of the same shape. */
  datatype Batch = Batch(tokenIds: seq<seq<int>>, paddingMask: Mask)

  /** Values of the exponential used by the softmax. */
  type Positive = x: real | x > 0.0 witness 1.0

  /**
   * The external causal language model, as the three capabilities the core
   * uses: the tokenizer's token-to-id lookup, the batched preprocessor, and
   * the forward pass to logits.
   */
  datatype CausalLM = CausalLM(
    tokenToId: string -> int,
    generatePreprocess: seq<string> -> Batch,
    forward: Batch -> Logits)

  // ---------------------------------------------------------------------------
  // Offset of the last prompt token
  // ---------------------------------------------------------------------------

  /** Every entry of a mask row is 0 or 1. */
  predicate Binary(row: seq<int>)
  {
    forall p :: 0 <= p < |row| ==> row[p] == 0 || row[p] == 1
  }

  /** `sum(padding_mask, axis=1)` for one row: on a 0/1 row, the number of real tokens. */
  function MaskSum(row: seq<int>): (s: int)
    ensures Binary(row) ==> 0 <= s <= |row| && s == multiset(row)[1]
    decreases |row|
  {
    if |row| == 0 then 0
    else
      assert row == [row[0]] + row[1..];
      row[0] + MaskSum(row[1..])
  }

  const Int32Min: int := -0x8000_0000
  const Int32Max: int := 0x7fff_ffff

  /** `cast(x, "int32")`: two's-complement wrap into the 32-bit range. */
  function CastInt32(x: int): (r: int)
    ensures Int32Min <= r <= Int32Max
    ensures Int32Min <= x <= Int32Max ==> r == x
  {
    (x - Int32Min) % 0x1_0000_0000 + Int32Min
  }

  /**
   * `last_prompt_index`: per row, the mask sum minus one, cast to int32. On a
   * 0/1 row that fits in int32 it is the number of real tokens minus one, so
   * -1 for a row with no real token.
   */
  function LastPromptIndex(mask: Mask): (idx: seq<int>)
    ensures |idx| == |mask|
    ensures forall b :: 0 <= b < |mask| && Binary(mask[b]) && |mask[b]| <= Int32Max ==>
      idx[b] + 1 == multiset(mask[b])[1] && -1 <= idx[b] < |mask[b]|
  {
    seq(|mask|, b requires 0 <= b < |mask| => CastInt32(MaskSum(mask[b]) - 1))
  }

  /** A mask row with real tokens first and padding after them. */
  predicate RightPadded(row: seq<int>)
  {
    forall i, j :: 0 <= i < j < |row| && row[i] == 0 ==> row[j] == 0
  }

  /**
   * With right padding, `sum - 1` is the position of the last real token:
   * that position holds a real token and every later one is padding.
   */
  lemma {:induction false} OffsetIsLastRealTokenWhenRightPadded(row: seq<int>)
    requires Binary(row) && RightPadded(row) && MaskSum(row) >= 1
    ensures row[MaskSum(row) - 1] == 1
    ensures forall p :: MaskSum(row) - 1 < p < |row| ==> row[p] == 0
  {
    RightPaddedSplit(row);
  }

  lemma {:induction false} RightPaddedSplit(row: seq<int>)
    requires Binary(row) && RightPadded(row)
    ensures forall p :: 0 <= p < |row| ==> (row[p] == 1 <==> p < MaskSum(row))
    decreases |row|
  {
    if |row| > 0 {
      var rest := row[1..];
      assert Binary(rest) && RightPadded(rest) by {
        forall i, j | 0 <= i < j < |rest| && rest[i] == 0 ensures rest[j] == 0 {
          assert row[i + 1] == 0 && i + 1 < j + 1;
        }
      }
      RightPaddedSplit(rest);
      if row[0] == 0 {
        assert forall p :: 0 <= p < |rest| ==> rest[p] == 0 by {
          forall p | 0 <= p < |rest| ensures rest[p] == 0 {
            assert row[p + 1] == 0;
          }
        }
        if |rest| > 0 {
          assert rest[0] == 0;
        }
        AllPaddingSumsToZero(rest);
      }
      forall p | 0 <= p < |row| ensures row[p] == 1 <==> p < MaskSum(row) {
        if p > 0 {
          assert row[p] == rest[p - 1];
        }
      }
    }
  }

  lemma {:induction false} AllPaddingSumsToZero(row: seq<int>)
    requires forall p :: 0 <= p < |row| ==> row[p] == 0
    ensures MaskSum(row) == 0
    decreases |row|
  {
    if |row| > 0 {
      AllPaddingSumsToZero(row[1..]);
    }
  }

  /**
   * With left padding the convention breaks: when a row ends with a real
   * token and has any padding, `sum - 1` lies before its last real token.
   */
  lemma OffsetMissesLastRealTokenWhenLeftPadded(row: seq<int>, pad: nat)
    requires Binary(row) && |row| > 0 && row[|row| - 1] == 1
    requires pad < |row| && row[pad] == 0
    ensures MaskSum(row) - 1 < |row| - 1
  {
    assert row[pad] in multiset(row);
    assert multiset(row)[0] >= 1;
    assert |multiset(row)| == |row|;
    BinaryMultiset(row);
  }

  lemma {:induction false} BinaryMultiset(row: seq<int>)
    requires Binary(row)
    ensures multiset(row)[0] + multiset(row)[1] == |row|
    decreases |row|
  {
    if |row| > 0 {
      assert row == [row[0]] + row[1..];
      BinaryMultiset(row[1..]);
    }
  }

  // ---------------------------------------------------------------------------
  // Gather, column selection, softmax
  // ---------------------------------------------------------------------------

  /** A possibly negative index counted from the end, as numpy-style `take` reads it. */
  function PyIndex(i: int, n: int): int
  {
    if i < 0 then i + n else i
  }

  /** Every index is valid for every row's position axis, counting from either end. */
  predicate TakeIndexable(logits: Logits, idx: seq<int>)
  {
    forall b, j :: 0 <= b < |logits| && 0 <= j < |idx| ==> -|logits[b]| <= idx[j] < |logits[b]|
  }

  /**
   * `take(logits, idx, axis=1)`: a (B, |idx|, V) tensor whose entry [b][j] is
   * row b read at position idx[j], for every pair (b, j) and not only b == j.
   */
  function Take(logits: Logits, idx: seq<int>): (t: Logits)
    requires TakeIndexable(logits, idx)
    ensures |t| == |logits|
    ensures forall b :: 0 <= b < |t| ==> |t[b]| == |idx|
    ensures forall b, j :: 0 <= b < |t| && 0 <= j < |idx| && idx[j] >= 0 ==> t[b][j] == logits[b][idx[j]]
    ensures forall b, j :: 0 <= b < |t| && 0 <= j < |idx| && idx[j] < 0 ==> t[b][j] == logits[b][|logits[b]| + idx[j]]
  {
    seq(|logits|, b requires 0 <= b < |logits| =>
      seq(|idx|, j requires 0 <= j < |idx| => logits[b][PyIndex(idx[j], |logits[b]|)]))
  }

  /** `take(logits, idx, axis=1)[:, 0]`: every row is read at idx[0], the index computed from row 0. */
  function LastLogits(logits: Logits, idx: seq<int>): (r: seq<seq<real>>)
    requires TakeIndexable(logits, idx) && |idx| > 0
    ensures |r| == |logits|
    ensures forall b :: 0 <= b < |r| ==> r[b] == logits[b][PyIndex(idx[0], |logits[b]|)]
  {
    var t := Take(logits, idx);
    seq(|t|, b requires 0 <= b < |t| => t[b][0])
  }

  /** Every candidate id is a valid column of a row of width v. */
  predicate IdsBelow(ids: seq<int>, v: int)
  {
    forall j :: 0 <= j < |ids| ==> 0 <= ids[j] < v
  }

  /** Every row has width v. */
  predicate RowsOfWidth(m: seq<seq<real>>, v: int)
  {
    forall b :: 0 <= b < |m| ==> |m[b]| == v
  }

  /** The candidate ids' entries of one row of logits, in candidate order. */
  function Candidates(v: seq<real>, ids: seq<int>): (c: seq<real>)
    requires IdsBelow(ids, |v|)
    ensures |c| == |ids|
    ensures forall j :: 0 <= j < |ids| ==> c[j] == v[ids[j]]
  {
    seq(|ids|, j requires 0 <= j < |ids| => assert 0 <= ids[j] < |v|; v[ids[j]])
  }

  /** `last_logits[:, id]`: entry id of every row. */
  function Column(last: seq<seq<real>>, width: int, id: int): (col: seq<real>)
    requires RowsOfWidth(last, width) && 0 <= id < width
    ensures |col| == |last|
  {
    seq(|last|, b requires 0 <= b < |last| => assert |last[b]| == width; last[b][id])
  }

  /** `[last_logits[:, idx] for idx in token_set_idx]`: one column per candidate id. */
  function Columns(last: seq<seq<real>>, width: int, ids: seq<int>): (cols: seq<seq<real>>)
    requires RowsOfWidth(last, width) && IdsBelow(ids, width)
    ensures |cols| == |ids|
    ensures forall j :: 0 <= j < |ids| ==> cols[j] == Column(last, width, ids[j])
  {
    seq(|ids|, j requires 0 <= j < |ids| => assert 0 <= ids[j] < width; Column(last, width, ids[j]))
  }

  /** `stack(cols, axis=1)`: column j becomes entry j of every row; an empty list cannot be stacked. */
  function Stack(cols: seq<seq<real>>): (m: seq<seq<real>>)
    requires |cols| > 0 && forall j :: 0 <= j < |cols| ==> |cols[j]| == |cols[0]|
    ensures |m| == |cols[0]|
    ensures forall b :: 0 <= b < |m| ==> |m[b]| == |cols|
    ensures forall b, j :: 0 <= b < |m| && 0 <= j < |cols| ==> m[b][j] == cols[j][b]
  {
    seq(|cols[0]|, b requires 0 <= b < |cols[0]| =>
      seq(|cols|, j requires 0 <= j < |cols| => assert |cols[j]| == |cols[0]|; cols[j][b]))
  }

  /** Selecting the candidate columns keeps one row per input row and the candidate order. */
  function SelectCandidates(last: seq<seq<real>>, width: int, ids: seq<int>): (m: seq<seq<real>>)
    requires |ids| > 0 && RowsOfWidth(last, width) && IdsBelow(ids, width)
    ensures |m| == |last|
    ensures forall b :: 0 <= b < |m| ==> m[b] == Candidates(last[b], ids)
  {
    var cols := Columns(last, width, ids);
    var m := Stack(cols);
    assert forall b :: 0 <= b < |m| ==> m[b] == Candidates(last[b], ids) by {
      forall b | 0 <= b < |m| ensures m[b] == Candidates(last[b], ids) {
        assert |last[b]| == width;
        forall j | 0 <= j < |ids| ensures m[b][j] == last[b][ids[j]] {
          assert cols[j] == Column(last, width, ids[j]);
        }
      }
    }
    m
  }

  /** The (abstract) exponential applied to every entry. */
  function Exps(v: seq<real>, exp: real -> Positive): (w: seq<real>)
    ensures |w| == |v|
    ensures forall j :: 0 <= j < |v| ==> w[j] == exp(v[j])
    ensures |v| > 0 ==> Sum(w) > 0.0
    decreases |v|
  {
    if |v| == 0 then [] else [exp(v[0]) as real] + Exps(v[1..], exp)
  }

  function Sum(w: seq<real>): real
    decreases |w|
  {
    if |w| == 0 then 0.0 else w[0] + Sum(w[1..])
  }

  /** A sum of positive values is positive and bounds each of them. */
  lemma {:induction false} SumOfPositives(w: seq<real>)
    requires forall j :: 0 <= j < |w| ==> w[j] > 0.0
    ensures |w| > 0 ==> Sum(w) > 0.0
    ensures forall j :: 0 <= j < |w| ==> w[j] <= Sum(w)
    decreases |w|
  {
    if |w| > 0 {
      SumOfPositives(w[1..]);
      forall j | 0 < j < |w| ensures w[j] <= Sum(w) {
        assert w[j] == w[1..][j - 1];
      }
    }
  }

  /** Every entry divided by the total. */
  function Normalize(w: seq<real>, total: real): (r: seq<real>)
    requires total > 0.0
    ensures |r| == |w|
    ensures forall j :: 0 <= j < |w| ==> r[j] == w[j] / total
    ensures Sum(r) == Sum(w) / total
    decreases |w|
  {
    if |w| == 0 then []
    else
      var rest := Normalize(w[1..], total);
      var r := [w[0] / total] + rest;
      DivisionDistributes(w[0], Sum(w[1..]), total);
      assert r[1..] == rest;
      assert forall j :: 0 < j < |w| ==> r[j] == rest[j - 1] && w[j] == w[1..][j - 1];
      r
  }

  lemma DivisionDistributes(x: real, y: real, total: real)
    requires total > 0.0
    ensures x / total + y / total == (x + y) / total
  {
  }

  /**
   * `softmax` over a row: a distribution over the row's columns, in the same
   * order. Column j is exp(v[j]) over the sum of all exp(v[k]).
   */
  function Softmax(v: seq<real>, exp: real -> Positive): (s: seq<real>)
    ensures |s| == |v|
    ensures |v| > 0 ==> Sum(s) == 1.0
    ensures forall j :: 0 <= j < |v| ==> 0.0 < s[j] <= 1.0
    ensures forall j :: 0 <= j < |v| ==> s[j] == exp(v[j]) / Sum(Exps(v, exp))
  {
    var w := Exps(v, exp);
    SumOfPositives(w);
    if |v| == 0 then []
    else
      NormalizedIsDistribution(w);
      Normalize(w, Sum(w))
  }

  /** Positive weights divided by their total form a distribution. */
  lemma NormalizedIsDistribution(w: seq<real>)
    requires |w| > 0 && forall j :: 0 <= j < |w| ==> w[j] > 0.0
    ensures Sum(w) > 0.0
    ensures Sum(Normalize(w, Sum(w))) == 1.0
    ensures forall j :: 0 <= j < |w| ==> 0.0 < Normalize(w, Sum(w))[j] <= 1.0
  {
    SumOfPositives(w);
    var total := Sum(w);
    var s := Normalize(w, total);
    SelfDivision(total);
    forall j | 0 <= j < |w| ensures 0.0 < s[j] <= 1.0 {
      assert s[j] == w[j] / total;
      DivideAtMostOne(w[j], total);
    }
  }

  lemma SelfDivision(total: real)
    requires total > 0.0
    ensures total / total == 1.0
  {
  }

  lemma DivideAtMostOne(x: real, total: real)
    requires 0.0 < x <= total
    ensures 0.0 < x / total <= 1.0
  {
  }

  /** The exponential is strictly increasing. */
  ghost predicate StrictlyIncreasing(exp: real -> Positive)
  {
    forall x, y :: x < y ==> exp(x) < exp(y)
  }

  /** With an increasing exponential the softmax keeps the order of every pair of columns. */
  lemma SoftmaxPreservesOrder(v: seq<real>, exp: real -> Positive, i: nat, j: nat)
    requires StrictlyIncreasing(exp)
    requires i < |v| && j < |v|
    ensures v[i] < v[j] <==> Softmax(v, exp)[i] < Softmax(v, exp)[j]
    ensures v[i] == v[j] <==> Softmax(v, exp)[i] == Softmax(v, exp)[j]
  {
    var s := Softmax(v, exp);
    var total := Sum(Exps(v, exp));
    SumOfPositives(Exps(v, exp));
    assert total > 0.0;
    DivisionMonotone(exp(v[i]), exp(v[j]), total);
    if v[i] < v[j] {
      assert exp(v[i]) < exp(v[j]);
    } else if v[j] < v[i] {
      assert exp(v[j]) < exp(v[i]);
    }
  }

  lemma DivisionMonotone(x: real, y: real, total: real)
    requires total > 0.0
    ensures x < y <==> x / total < y / total
    ensures x == y <==> x / total == y / total
  {
    assert x / total * total == x;
    assert y / total * total == y;
  }

  /** Softmax of every row. */
  function SoftmaxRows(m: seq<seq<real>>, exp: real -> Positive): (r: seq<seq<real>>)
    ensures |r| == |m|
    ensures forall b :: 0 <= b < |m| ==> r[b] == Softmax(m[b], exp)
  {
    seq(|m|, b requires 0 <= b < |m| => Softmax(m[b], exp))
  }

  // ---------------------------------------------------------------------------
  // The layer
  // ---------------------------------------------------------------------------

  /**
   * What the layer needs of its mask: at least one row, all rows of one
   * length that fits in int32, 0/1 entries, and a real token in row 0 (the
   * `call` has no guard for an all-padding row 0, whose offset is -1).
   */
  predicate MaskReady(mask: Mask)
  {
    && |mask| > 0
    && |mask[0]| <= Int32Max
    && (forall b :: 0 <= b < |mask| ==> |mask[b]| == |mask[0]| && Binary(mask[b]))
    && MaskSum(mask[0]) >= 1
  }

  /**
   * What the layer needs of its inputs: a ready mask, logits of shape
   * (B, P, V) matching it, and at least one candidate id, each below V.
   */
  predicate CallReady(logits: Logits, mask: Mask, ids: seq<int>)
  {
    && MaskReady(mask)
    && |logits| == |mask|
    && (forall b :: 0 <= b < |logits| ==> |logits[b]| == |mask[b]|)
    && VocabWidth(logits, |logits[0][0]|)
    && |ids| > 0
    && IdsBelow(ids, |logits[0][0]|)
  }

  /** Every (row, position) of the logits has v vocabulary entries. */
  predicate VocabWidth(logits: Logits, v: int)
  {
    forall b, p :: 0 <= b < |logits| && 0 <= p < |logits[b]| ==> |logits[b][p]| == v
  }

  /** The position every row is read at: row 0's number of real tokens minus one. */
  function RowZeroOffset(mask: Mask): (o: nat)
    requires MaskReady(mask)
    ensures o < |mask[0]|
    ensures o + 1 == multiset(mask[0])[1]
  {
    MaskSum(mask[0]) - 1
  }

  /** Every offset is a valid (possibly negative) position index of every row. */
  lemma OffsetsIndexable(logits: Logits, mask: Mask, ids: seq<int>)
    requires CallReady(logits, mask, ids)
    ensures TakeIndexable(logits, LastPromptIndex(mask))
  {
    var idx := LastPromptIndex(mask);
    forall b, j | 0 <= b < |logits| && 0 <= j < |idx|
      ensures -|logits[b]| <= idx[j] < |logits[b]|
    {
      assert |mask[j]| == |mask[0]| == |logits[b]|;
    }
  }

  /** The gathered logits: every row at row 0's offset, each of the vocabulary's width. */
  lemma LastLogitsAtRowZeroOffset(logits: Logits, mask: Mask, ids: seq<int>)
    requires CallReady(logits, mask, ids)
    ensures TakeIndexable(logits, LastPromptIndex(mask))
    ensures var last := LastLogits(logits, LastPromptIndex(mask));
      RowsOfWidth(last, |logits[0][0]|)
      && forall b :: 0 <= b < |logits| ==> last[b] == logits[b][RowZeroOffset(mask)]
  {
    OffsetsIndexable(logits, mask, ids);
    var last := LastLogits(logits, LastPromptIndex(mask));
    var o := RowZeroOffset(mask);
    forall b | 0 <= b < |last| ensures last[b] == logits[b][o] && |last[b]| == |logits[0][0]| {
      assert |logits[b]| == |mask[b]| == |mask[0]|;
    }
  }

  /** The candidates' softmax of every gathered row, when every row is read at position o. */
  lemma SelectedRows(logits: Logits, last: seq<seq<real>>, o: nat, width: int, ids: seq<int>, exp: real -> Positive)
    requires |ids| > 0 && RowsOfWidth(last, width) && IdsBelow(ids, width)
    requires |last| == |logits|
    requires forall b :: 0 <= b < |logits| ==> o < |logits[b]| && last[b] == logits[b][o]
    ensures var r := SoftmaxRows(SelectCandidates(last, width, ids), exp);
      && |r| == |logits|
      && (forall b :: 0 <= b < |r| ==> |r[b]| == |ids| && Sum(r[b]) == 1.0)
      && forall b :: 0 <= b < |r| ==> IdsBelow(ids, |logits[b][o]|) && r[b] == Softmax(Candidates(logits[b][o], ids), exp)
  {
    var m := SelectCandidates(last, width, ids);
    var r := SoftmaxRows(m, exp);
    forall b | 0 <= b < |r|
      ensures |r[b]| == |ids| && Sum(r[b]) == 1.0
      ensures IdsBelow(ids, |logits[b][o]|) && r[b] == Softmax(Candidates(logits[b][o], ids), exp)
    {
      assert |last[b]| == width;
      assert m[b] == Candidates(last[b], ids);
    }
  }

  /** `TokenProbabilityLayer`: its only field is the candidate ids, fixed at construction. */
  datatype TokenProbabilityLayer = TokenProbabilityLayer(tokenSetIdx: seq<int>) {

    /**
     * `call`: one distribution over the candidates per input row. Every row b
     * is read at row 0's last prompt position; entry j comes from vocabulary
     * id tokenSetIdx[j] alone.
     */
    function Call(logits: Logits, paddingMask: Mask, exp: real -> Positive): (r: seq<seq<real>>)
      requires CallReady(logits, paddingMask, tokenSetIdx)
      ensures |r| == |logits|
      ensures forall b :: 0 <= b < |r| ==>
        r[b] == Softmax(Candidates(logits[b][RowZeroOffset(paddingMask)], tokenSetIdx), exp)
      ensures forall b :: 0 <= b < |r| ==> |r[b]| == |tokenSetIdx| && Sum(r[b]) == 1.0
    {
      var lastPromptIndex := LastPromptIndex(paddingMask);
      OffsetsIndexable(logits, paddingMask, tokenSetIdx);
      var lastLogits := LastLogits(logits, lastPromptIndex);
      var width := |logits[0][0]|;
      LastLogitsAtRowZeroOffset(logits, paddingMask, tokenSetIdx);
      var stacked := SelectCandidates(lastLogits, width, tokenSetIdx);
      SelectedRows(logits, lastLogits, RowZeroOffset(paddingMask), width, tokenSetIdx, exp);
      SoftmaxRows(stacked, exp)
    }

    /** The per-row reading: row b at its own last prompt position. */
    function CallPerRow(logits: Logits, paddingMask: Mask, exp: real -> Positive): seq<seq<real>>
      requires CallReady(logits, paddingMask, tokenSetIdx)
      requires forall b :: 0 <= b < |paddingMask| ==> MaskSum(paddingMask[b]) >= 1
    {
      seq(|logits|, b requires 0 <= b < |logits| =>
        Softmax(Candidates(logits[b][MaskSum(paddingMask[b]) - 1], tokenSetIdx), exp))
    }
  }

  /**
   * When every row has as many real tokens as row 0 (in particular for a
   * batch of one row), each row is read at its own last prompt position.
   */
  lemma CallReadsOwnOffsetWhenSumsAgree(layer: TokenProbabilityLayer, logits: Logits, mask: Mask, exp: real -> Positive)
    requires CallReady(logits, mask, layer.tokenSetIdx)
    requires forall b :: 0 <= b < |mask| ==> MaskSum(mask[b]) == MaskSum(mask[0])
    ensures layer.Call(logits, mask, exp) == layer.CallPerRow(logits, mask, exp)
  {
    var r := layer.Call(logits, mask, exp);
    var q := layer.CallPerRow(logits, mask, exp);
    assert |r| == |q|;
    forall b | 0 <= b < |r| ensures r[b] == q[b] {
      RowReadsOwnOffset(layer, logits, mask, exp, b);
    }
  }

  /** One row of the equal-sums case. */
  lemma RowReadsOwnOffset(layer: TokenProbabilityLayer, logits: Logits, mask: Mask, exp: real -> Positive, b: nat)
    requires CallReady(logits, mask, layer.tokenSetIdx)
    requires forall b :: 0 <= b < |mask| ==> MaskSum(mask[b]) == MaskSum(mask[0])
    requires b < |logits|
    ensures layer.Call(logits, mask, exp)[b] == layer.CallPerRow(logits, mask, exp)[b]
  {
    var o := RowZeroOffset(mask);
    var v := Candidates(logits[b][o], layer.tokenSetIdx);
    assert MaskSum(mask[b]) - 1 == o;
    assert layer.Call(logits, mask, exp)[b] == Softmax(v, exp);
    assert layer.CallPerRow(logits, mask, exp)[b] == Softmax(v, exp);
  }

  /** A batch of one row is read at its own last prompt position. */
  lemma SingleRowReadsOwnOffset(layer: TokenProbabilityLayer, logits: Logits, mask: Mask, exp: real -> Positive)
    requires CallReady(logits, mask, layer.tokenSetIdx) && |mask| == 1
    ensures layer.Call(logits, mask, exp) == layer.CallPerRow(logits, mask, exp)
  {
    CallReadsOwnOffsetWhenSumsAgree(layer, logits, mask, exp);
  }

  /**
   * Rows with fewer real tokens than row 0 are read at row 0's position, not
   * at their own: when the candidates rank differently at the two positions,
   * the row's output differs from the per-row reading for every increasing
   * exponential.
   */
  lemma ShorterRowIsReadAtRowZeroOffset(layer: TokenProbabilityLayer, logits: Logits, mask: Mask, exp: real -> Positive, b: nat)
    requires CallReady(logits, mask, layer.tokenSetIdx) && StrictlyIncreasing(exp)
    requires forall b :: 0 <= b < |mask| ==> MaskSum(mask[b]) >= 1
    requires b < |mask| && |layer.tokenSetIdx| >= 2
    requires var read := Candidates(logits[b][RowZeroOffset(mask)], layer.tokenSetIdx);
      var own := Candidates(logits[b][MaskSum(mask[b]) - 1], layer.tokenSetIdx);
      read[1] < read[0] && own[0] <= own[1]
    ensures layer.Call(logits, mask, exp)[b] != layer.CallPerRow(logits, mask, exp)[b]
  {
    var ids := layer.tokenSetIdx;
    var read := Candidates(logits[b][RowZeroOffset(mask)], ids);
    var own := Candidates(logits[b][MaskSum(mask[b]) - 1], ids);
    RanksDiffer(read, own, exp);
    assert layer.Call(logits, mask, exp)[b] == Softmax(read, exp);
    assert layer.CallPerRow(logits, mask, exp)[b] == Softmax(own, exp);
  }

  /** Rows whose first two entries rank oppositely have different softmaxes. */
  lemma RanksDiffer(read: seq<real>, own: seq<real>, exp: real -> Positive)
    requires StrictlyIncreasing(exp) && |read| >= 2 && |own| >= 2
    requires read[1] < read[0] && own[0] <= own[1]
    ensures Softmax(read, exp) != Softmax(own, exp)
  {
    SoftmaxPreservesOrder(read, exp, 1, 0);
    SoftmaxPreservesOrder(own, exp, 0, 1);
    var s1, s2 := Softmax(read, exp), Softmax(own, exp);
    assert s1[1] < s1[0] && s2[0] <= s2[1];
  }

  /**
   * A two-row batch meeting the conditions above: row 0 has two real tokens,
   * row 1 only one. At row 1's own last position both candidates score 0.0;
   * at position 1, where it is read, they score 1.0 and 0.0.
   */
  const ExampleLogits: Logits := [[[0.0, 0.0], [0.0, 0.0]], [[0.0, 0.0], [1.0, 0.0]]]
  const ExampleMask: Mask := [[1, 1], [1, 0]]

  /** The example batch satisfies the layer's needs and ranks the candidates oppositely at the two positions. */
  lemma ExampleIsReady()
    ensures CallReady(ExampleLogits, ExampleMask, [0, 1])
    ensures RowZeroOffset(ExampleMask) == 1 && MaskSum(ExampleMask[1]) == 1
    ensures forall b :: 0 <= b < |ExampleMask| ==> MaskSum(ExampleMask[b]) >= 1
    ensures var read := Candidates(ExampleLogits[1][RowZeroOffset(ExampleMask)], [0, 1]);
      var own := Candidates(ExampleLogits[1][MaskSum(ExampleMask[1]) - 1], [0, 1]);
      read[1] < read[0] && own[0] <= own[1]
  {
    var mask := ExampleMask;
    assert Binary(mask[0]) && Binary(mask[1]);
    assert MaskSum(mask[0]) == 2 by {
      assert mask[0][1..] == [1];
    }
    assert MaskSum(mask[1]) == 1 by {
      assert mask[1][1..] == [0];
    }
    assert MaskReady(mask);
    assert VocabWidth(ExampleLogits, 2);
  }

  /** In the example batch, row 1's output differs from the per-row reading. */
  lemma ExampleRowOneIsReadAtRowZeroOffset(exp: real -> Positive)
    requires StrictlyIncreasing(exp)
    ensures CallReady(ExampleLogits, ExampleMask, [0, 1])
    ensures forall b :: 0 <= b < |ExampleMask| ==> MaskSum(ExampleMask[b]) >= 1
    ensures var layer := TokenProbabilityLayer([0, 1]);
      layer.Call(ExampleLogits, ExampleMask, exp)[1] != layer.CallPerRow(ExampleLogits, ExampleMask, exp)[1]
  {
    ExampleIsReady();
    ShorterRowIsReadAtRowZeroOffset(TokenProbabilityLayer([0, 1]), ExampleLogits, ExampleMask, exp, 1);
  }

  /** Only the candidate columns at the read position matter; every other logit is discarded. */
  lemma CallIgnoresOtherLogits(layer: TokenProbabilityLayer, l1: Logits, l2: Logits, mask: Mask, exp: real -> Positive)
    requires CallReady(l1, mask, layer.tokenSetIdx) && CallReady(l2, mask, layer.tokenSetIdx)
    requires forall b, j :: 0 <= b < |l1| && 0 <= j < |layer.tokenSetIdx| ==>
      l1[b][RowZeroOffset(mask)][layer.tokenSetIdx[j]] == l2[b][RowZeroOffset(mask)][layer.tokenSetIdx[j]]
    ensures layer.Call(l1, mask, exp) == layer.Call(l2, mask, exp)
  {
    var o := RowZeroOffset(mask);
    var ids := layer.tokenSetIdx;
    var r1, r2 := layer.Call(l1, mask, exp), layer.Call(l2, mask, exp);
    assert |r1| == |r2|;
    forall b | 0 <= b < |l1| ensures r1[b] == r2[b] {
      assert r1[b] == Softmax(Candidates(l1[b][o], ids), exp);
      assert r2[b] == Softmax(Candidates(l2[b][o], ids), exp);
      SameCandidates(l1[b][o], l2[b][o], ids);
    }
  }

  /** Rows that agree on the candidate ids give the same candidates. */
  lemma SameCandidates(v1: seq<real>, v2: seq<real>, ids: seq<int>)
    requires IdsBelow(ids, |v1|) && IdsBelow(ids, |v2|)
    requires forall j :: 0 <= j < |ids| ==> v1[ids[j]] == v2[ids[j]]
    ensures Candidates(v1, ids) == Candidates(v2, ids)
  {
  }

  /** With an increasing exponential the output ranks candidates as their logits do. */
  lemma CallPreservesCandidateOrder(layer: TokenProbabilityLayer, logits: Logits, mask: Mask, exp: real -> Positive, b: nat, i: nat, j: nat)
    requires CallReady(logits, mask, layer.tokenSetIdx) && StrictlyIncreasing(exp)
    requires b < |logits| && i < |layer.tokenSetIdx| && j < |layer.tokenSetIdx|
    ensures var v := logits[b][RowZeroOffset(mask)];
      var r := layer.Call(logits, mask, exp);
      (v[layer.tokenSetIdx[i]] < v[layer.tokenSetIdx[j]] <==> r[b][i] < r[b][j])
  {
    var v := logits[b][RowZeroOffset(mask)];
    SoftmaxPreservesOrder(Candidates(v, layer.tokenSetIdx), exp, i, j);
  }

  // ---------------------------------------------------------------------------
  // Building the probability model
  // ---------------------------------------------------------------------------

  /** `[token_to_id(token) for token in token_set]`: one id per token, in order; duplicates are kept. */
  function TokenIds(tokenToId: string -> int, tokenSet: seq<string>): (ids: seq<int>)
    ensures |ids| == |tokenSet|
    ensures forall i :: 0 <= i < |tokenSet| ==> ids[i] == tokenToId(tokenSet[i])
    decreases |tokenSet|
  {
    if |tokenSet| == 0 then [] else [tokenToId(tokenSet[0])] + TokenIds(tokenToId, tokenSet[1..])
  }

  /** Repeated tokens resolve to the same id; nothing rejects them. */
  lemma DuplicateTokensShareId(tokenToId: string -> int, tokenSet: seq<string>, i: nat, j: nat)
    requires i < |tokenSet| && j < |tokenSet| && tokenSet[i] == tokenSet[j]
    ensures var ids := TokenIds(tokenToId, tokenSet); ids[i] == ids[j]
  {
  }

  /** The model returned by `build_token_probability_model`: the forward pass followed by the layer. */
  datatype TokenProbabilityModel = TokenProbabilityModel(forward: Batch -> Logits, layer: TokenProbabilityLayer) {

    /** The layer accepts the forward pass of this batch. */
    predicate Ready(inputs: Batch)
    {
      CallReady(forward(inputs), inputs.paddingMask, layer.tokenSetIdx)
    }

    /** `predict` on one batch: one distribution over the candidates per row of the batch. */
    function Predict(inputs: Batch, exp: real -> Positive): (r: seq<seq<real>>)
      requires Ready(inputs)
      ensures |r| == |inputs.paddingMask|
      ensures forall b :: 0 <= b < |r| ==>
        r[b] == Softmax(Candidates(forward(inputs)[b][RowZeroOffset(inputs.paddingMask)], layer.tokenSetIdx), exp)
    {
      layer.Call(forward(inputs), inputs.paddingMask, exp)
    }
  }

  /**
   * `build_token_probability_model`: the candidate ids are resolved once, in
   * `token_set` order, with the model's tokenizer; the forward pass is the model's.
   */
  function BuildTokenProbabilityModel(model: CausalLM, tokenSet: seq<string>): (m: TokenProbabilityModel)
    ensures |m.layer.tokenSetIdx| == |tokenSet|
    ensures forall i :: 0 <= i < |tokenSet| ==> m.layer.tokenSetIdx[i] == model.tokenToId(tokenSet[i])
    ensures forall inputs :: m.forward(inputs) == model.forward(inputs)
  {
    TokenProbabilityModel(model.forward, TokenProbabilityLayer(TokenIds(model.tokenToId, tokenSet)))
  }
}
