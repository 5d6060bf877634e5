/**
 * The agile classifier's prompt: the instructions with the label list, the
 * text to classify and the "Prediction:" cue, joined by a separator token.
 */
module AgileTextProcessing {
  import opened Wrappers
  import Text

  /** Default value of the `separator` parameter. */
  const DefaultSeparator: string := "<separator>"

  /** First segment: `instructions:[label1,label2,...]`. */
  function Header(labels: seq<string>, instructions: string): string
  {
    instructions + ":[" + Text.Join(",", labels) + "]"
  }

  /** Everything the prompt puts before the text. */
  function TextPrefix(labels: seq<string>, instructions: string, separator: string): string
  {
    Header(labels, instructions) + separator + "Text:"
  }

  /** Everything the prompt puts after the text. */
  function TextSuffix(separator: string): string
  {
    separator + "Prediction:"
  }

  /**
   * `build_prompt`: the three segments joined by the separator. The text is
   * inserted verbatim; a separator inside it is not escaped.
   */
  function BuildPrompt(text: string, labels: seq<string>, instructions: string, separator: string := DefaultSeparator): (r: string)
    ensures r == Header(labels, instructions) + separator + "Text:" + text + separator + "Prediction:"
    ensures r == TextPrefix(labels, instructions, separator) + text + TextSuffix(separator)
  {
    Text.JoinThree(separator, Header(labels, instructions), "Text:" + text, "Prediction:");
    Text.Join(separator, [Header(labels, instructions), "Text:" + text, "Prediction:"])
  }

  /** The prompt always starts with the instructions and ends with the cue. */
  lemma BuildPromptFrame(text: string, labels: seq<string>, instructions: string, separator: string)
    ensures instructions <= BuildPrompt(text, labels, instructions, separator)
    ensures var r := BuildPrompt(text, labels, instructions, separator);
      |r| >= 11 && r[|r| - 11..] == "Prediction:"
  {
    var r := BuildPrompt(text, labels, instructions, separator);
    var rest := ":[" + Text.Join(",", labels) + "]" + separator + "Text:" + text + separator;
    assert r == instructions + rest + "Prediction:";
    assert r[|r| - 11..] == "Prediction:";
  }

  /** With no labels the first segment is `instructions:[]`. */
  lemma BuildPromptNoLabels(text: string, instructions: string, separator: string)
    ensures BuildPrompt(text, [], instructions, separator)
         == instructions + ":[]" + separator + "Text:" + text + separator + "Prediction:"
  {
  }

  /** The exact length of a prompt. */
  lemma BuildPromptLength(text: string, labels: seq<string>, instructions: string, separator: string)
    ensures |BuildPrompt(text, labels, instructions, separator)|
         == |instructions| + 3 + Text.TotalLength(labels) + (if |labels| == 0 then 0 else |labels| - 1)
            + 2 * |separator| + 5 + |text| + 11
  {
    Text.JoinLength(",", labels);
  }

  /**
   * Recovers the text from a prompt built with the given labels, instructions
   * and separator, or None when the prompt cannot have been built from them.
   */
  function ExtractText(prompt: string, labels: seq<string>, instructions: string, separator: string): (r: Option<string>)
    ensures r.Some? ==> |r.value| <= |prompt|
  {
    var pre := TextPrefix(labels, instructions, separator);
    var post := TextSuffix(separator);
    if |pre| + |post| <= |prompt| && prompt[..|pre|] == pre && prompt[|prompt| - |post|..] == post
    then Some(prompt[|pre|..|prompt| - |post|])
    else None
  }

  /**
   * The text is inserted verbatim, whatever it contains: the prompt gives it
   * back, and only the prompts this encoder builds give a text back.
   */
  lemma ExtractTextInvertsBuildPrompt(text: string, labels: seq<string>, instructions: string, separator: string)
    ensures ExtractText(BuildPrompt(text, labels, instructions, separator), labels, instructions, separator) == Some(text)
  {
    var pre := TextPrefix(labels, instructions, separator);
    var post := TextSuffix(separator);
    var p := BuildPrompt(text, labels, instructions, separator);
    assert p == pre + text + post;
    assert p[..|pre|] == pre;
    assert p[|p| - |post|..] == post;
    assert p[|pre|..|p| - |post|] == text;
  }

  lemma ExtractTextOnlyFromPrompts(prompt: string, text: string, labels: seq<string>, instructions: string, separator: string)
    requires ExtractText(prompt, labels, instructions, separator) == Some(text)
    ensures BuildPrompt(text, labels, instructions, separator) == prompt
  {
    var pre := TextPrefix(labels, instructions, separator);
    var post := TextSuffix(separator);
    assert prompt == prompt[..|pre|] + prompt[|pre|..|prompt| - |post|] + prompt[|prompt| - |post|..];
  }

  /** Two prompts with the same labels, instructions and separator are equal only for equal texts. */
  lemma BuildPromptInjective(t1: string, t2: string, labels: seq<string>, instructions: string, separator: string)
    requires BuildPrompt(t1, labels, instructions, separator) == BuildPrompt(t2, labels, instructions, separator)
    ensures t1 == t2
  {
    ExtractTextInvertsBuildPrompt(t1, labels, instructions, separator);
    ExtractTextInvertsBuildPrompt(t2, labels, instructions, separator);
  }
}
