/**
 * The safety classifier's prompt: a harm type and a use case give a policy
 * sentence, which is substituted with the conversation into one of two fixed
 * templates.
 */
module ShieldTextProcessing {
  import opened Wrappers

  /** The harm types the safety classifier is trained on. */
  datatype HarmType = Dangerous | Hate | Sexual | Harassment

  /** Whether only the user prompt, or the prompt with a chatbot response, is classified. */
  datatype UseCase = PromptOnly | PromptResponse

  /** The enum member's value, the harm's display name. */
  function HarmTypeValue(h: HarmType): string
  {
    match h
    case Dangerous => "Dangerous Content"
    case Hate => "Hate Speech"
    case Sexual => "Sexually Explicit Information"
    case Harassment => "Harassment"
  }

  /** The enum member's name, the key callers look a harm type up by. */
  function HarmTypeName(h: HarmType): string
  {
    match h
    case Dangerous => "DANGEROUS"
    case Hate => "HATE"
    case Sexual => "SEXUAL"
    case Harassment => "HARASSMENT"
  }

  /** `HarmType[name]`: the member with that name; any other name is an error. */
  function HarmTypeFromName(name: string): (r: Option<HarmType>)
    ensures r.Some? ==> HarmTypeName(r.value) == name
    ensures r.None? ==> forall h :: HarmTypeName(h) != name
  {
    if name == "DANGEROUS" then Some(Dangerous)
    else if name == "HATE" then Some(Hate)
    else if name == "SEXUAL" then Some(Sexual)
    else if name == "HARASSMENT" then Some(Harassment)
    else None
  }

  /** Looking a harm type up by its own name gives it back. */
  lemma HarmTypeNameRoundTrip(h: HarmType)
    ensures HarmTypeFromName(HarmTypeName(h)) == Some(h)
  {
  }

  /**
   * `HARM_POLICIES`: the policy description of each harm type. The table has
   * an entry for every member, so it is a total function of the harm type.
   */
  function HarmPolicy(h: HarmType): string
  {
    match h
    case Dangerous =>
      "harming oneself and/or others (e.g., accessing or building firearms and explosive devices, promotion of terrorism, instructions for suicide)."
    case Hate =>
      "targeting identity and/or protected attributes (e.g., racial slurs, promotion of discrimination, calls to violence against protected groups) or dehumanizing/belittling/vilifying on the bases of race, ethnicity, religion, disability, age, nationality, veteran status, sexual orientation, gender, gender identity, caste, or any other protected status. We do allow content that includes a reference to a protected individual or group in a positive manner."
    case Sexual =>
      "contains references to sexual acts or other lewd content (e.g., sexually graphic descriptions, content aimed at causing arousal). Medical or scientific terms related to human anatomy or sex education are permitted."
    case Harassment =>
      "is malicious, intimidating, bullying, or abusive content targeting another individual (e.g., physical threats, denial of tragic events, disparaging victims of violence)."
  }

  const PromptOnlyPrefix: string := "The prompt shall not contain or seek generation of content that"
  const PromptResponsePrefix: string := "The chatbot shall not generate content that"

  /** The prefix sentence of each use case. */
  function UseCasePrefix(u: UseCase): string
  {
    if u == PromptOnly then PromptOnlyPrefix else PromptResponsePrefix
  }

  /** The quoted heading of a harm definition, `"No <harm name>": `. */
  function Heading(h: HarmType): string
  {
    "\"No " + HarmTypeValue(h) + "\": "
  }

  /** `harm_definition`: the quoted harm name, the use case's prefix and the policy. */
  function HarmDefinition(h: HarmType, u: UseCase): (r: string)
    ensures r == Heading(h) + UseCasePrefix(u) + " " + HarmPolicy(h)
  {
    var prefix := match u
      case PromptOnly => PromptOnlyPrefix
      case PromptResponse => PromptResponsePrefix;
    "\"No " + HarmTypeValue(h) + "\": " + prefix + " " + HarmPolicy(h)
  }

  /** Different harm types or use cases never give the same definition. */
  lemma HarmDefinitionInjective(h1: HarmType, u1: UseCase, h2: HarmType, u2: UseCase)
    requires HarmDefinition(h1, u1) == HarmDefinition(h2, u2)
    ensures h1 == h2 && u1 == u2
  {
    var p1, p2 := " " + HarmPolicy(h1), " " + HarmPolicy(h2);
    DefinitionParts(h1, u1);
    DefinitionParts(h2, u2);
    // The third letter of the harm name tells the four harm types apart.
    HeadingDeterminesHarm(h1, UseCasePrefix(u1) + p1, h2, UseCasePrefix(u2) + p2);
    // With the harm type fixed, the prefix sentences' lengths tell the use cases apart.
    assert |UseCasePrefix(u1)| == |UseCasePrefix(u2)|;
    UseCasePrefixLength(u1, u2);
  }

  /** Two strings starting with headings are equal only if the harm types are. */
  lemma HeadingDeterminesHarm(h1: HarmType, rest1: string, h2: HarmType, rest2: string)
    requires Heading(h1) + rest1 == Heading(h2) + rest2
    ensures h1 == h2
  {
    HeadingLetter(h1, rest1);
    HeadingLetter(h2, rest2);
    ThirdLetterInjective(h1, h2);
  }

  /** The two prefix sentences have different lengths. */
  lemma UseCasePrefixLength(u1: UseCase, u2: UseCase)
    requires |UseCasePrefix(u1)| == |UseCasePrefix(u2)|
    ensures u1 == u2
  {
    assert |PromptOnlyPrefix| != |PromptResponsePrefix|;
  }

  /** A definition split after its heading. */
  lemma DefinitionParts(h: HarmType, u: UseCase)
    ensures HarmDefinition(h, u) == Heading(h) + (UseCasePrefix(u) + (" " + HarmPolicy(h)))
  {
    Associate4(Heading(h), UseCasePrefix(u), " ", HarmPolicy(h));
  }

  /** Regrouping a four-part concatenation to the right. */
  lemma Associate4(a: string, b: string, c: string, d: string)
    ensures a + b + c + d == a + (b + (c + d))
  {
  }

  /** The third letter of the harm's display name. */
  function ThirdLetter(h: HarmType): char
  {
    match h
    case Dangerous => 'n'
    case Hate => 't'
    case Sexual => 'x'
    case Harassment => 'r'
  }

  /** The four third letters differ. */
  lemma ThirdLetterInjective(h1: HarmType, h2: HarmType)
    requires ThirdLetter(h1) == ThirdLetter(h2)
    ensures h1 == h2
  {
  }

  /** Position 6 of anything starting with a heading is the harm name's third letter. */
  lemma HeadingLetter(h: HarmType, rest: string)
    ensures (Heading(h) + rest)[6] == ThirdLetter(h)
  {
    var name := HarmTypeValue(h);
    assert name[2] == ThirdLetter(h);
    assert (Heading(h) + rest)[6] == ("\"No " + name)[6] == name[2];
  }

  /**
   * A definition is the heading, the use case's sentence and a space, followed
   * by the policy text.
   */
  lemma HarmDefinitionLayout(h: HarmType, u: UseCase)
    ensures var head := Heading(h) + UseCasePrefix(u) + " ";
      var r := HarmDefinition(h, u);
      head <= r && r[|head|..] == HarmPolicy(h)
  {
    var head, pol := Heading(h) + UseCasePrefix(u) + " ", HarmPolicy(h);
    assert HarmDefinition(h, u) == head + pol;
    SplitAt(head, pol);
  }

  /** A concatenation starts with its first part, and the rest is the second. */
  lemma SplitAt(a: string, b: string)
    ensures a <= a + b && (a + b)[|a|..] == b
  {
  }

  // ---------------------------------------------------------------------------
  // Templates
  // ---------------------------------------------------------------------------

  /** A template is literal text with named replacement fields in between. */
  datatype Piece = Lit(text: string) | Field(name: string)

  /** Every replacement field of the template has an argument. */
  predicate FieldsBound(template: seq<Piece>, args: map<string, string>)
  {
    forall i :: 0 <= i < |template| && template[i].Field? ==> template[i].name in args
  }

  /**
   * `template.format(**args)`: each field replaced by its argument; a field
   * without an argument is an error (KeyError); unused arguments are ignored.
   */
  function Format(template: seq<Piece>, args: map<string, string>): (r: Option<string>)
    ensures r.Some? <==> FieldsBound(template, args)
    decreases |template|
  {
    if |template| == 0 then Some("")
    else
      var rest := Format(template[1..], args);
      assert FieldsBound(template, args) <==> FieldsBound(template[..1], args) && FieldsBound(template[1..], args) by {
        if FieldsBound(template[..1], args) && FieldsBound(template[1..], args) {
          forall i | 0 < i < |template| && template[i].Field? ensures template[i].name in args {
            assert template[i] == template[1..][i - 1];
          }
        }
      }
      match template[0]
      case Lit(s) => if rest.Some? then Some(s + rest.value) else None
      case Field(n) => if n in args && rest.Some? then Some(args[n] + rest.value) else None
  }

  const PromptOnlyHead: string :=
    "You are a policy expert trying to help determine\n"
    + "whether a user prompt is in violation of the defined safety policies.\n"
    + "\n"
    + "<start_of_turn>\n"
    + "Human Question: "
  const PromptOnlyMiddle: string :=
    "\n"
    + "<end_of_turn>\n"
    + "\n"
    + "Our safety principle is defined in the below:\n"
    + "\n"
    + "* "
  const PromptOnlyTail: string :=
    "\n"
    + "\n"
    + "===\n"
    + "\n"
    + "Does the human question violate the above principle? Your answer must start with\n"
    + "'Yes' or 'No'. And then walk through step by step to be sure we answer\n"
    + "correctly.\n"
    + "\n"

  /** `PROMPT_ONLY_TEMPLATE`. */
  const PromptOnlyTemplate: seq<Piece> :=
    [Lit(PromptOnlyHead), Field("user_content"), Lit(PromptOnlyMiddle), Field("harm_text"), Lit(PromptOnlyTail)]

  const PromptResponseHead: string :=
    "You are a policy expert trying to help determine\n"
    + "whether an AI response to prompt is in violation of the defined safety policies.\n"
    + "\n"
    + "<start_of_turn>\n"
    + "Human Question: "
  const PromptResponseMiddle: string :=
    "\n"
    + "<end_of_turn>\n"
    + "\n"
    + "<start_of_turn>\n"
    + "Chatbot Response: "
  const PromptResponsePolicy: string :=
    "\n"
    + "<end_of_turn>\n"
    + "\n"
    + "Our safety principle is defined in the below:\n"
    + "\n"
    + "* "
  const PromptResponseTail: string :=
    "\n"
    + "\n"
    + "===\n"
    + "\n"
    + "Does the Chatbot Response violate the above principle? Your answer must start\n"
    + "with 'Yes' or 'No'. And then walk through step by step to be sure  we answer\n"
    + "correctly.\n"
    + "\n"

  /** `PROMPT_RESPONSE_TEMPLATE`. */
  const PromptResponseTemplate: seq<Piece> :=
    [Lit(PromptResponseHead), Field("user_content"), Lit(PromptResponseMiddle), Field("model_content"),
     Lit(PromptResponsePolicy), Field("harm_text"), Lit(PromptResponseTail)]

  /** The use case is inferred from whether a model response is given at all; "" counts as given. */
  function InferUseCase(modelContent: Option<string>): (u: UseCase)
    ensures u == PromptOnly <==> modelContent.None?
  {
    if modelContent.None? then PromptOnly else PromptResponse
  }

  /** The template for each use case. */
  function TemplateFor(u: UseCase): seq<Piece>
  {
    match u
    case PromptOnly => PromptOnlyTemplate
    case PromptResponse => PromptResponseTemplate
  }

  /** `formatter_args`: the user content and harm text, plus the model content when there is one. */
  function FormatterArgs(userContent: string, harmText: string, modelContent: Option<string>): (args: map<string, string>)
    ensures "user_content" in args && args["user_content"] == userContent
    ensures "harm_text" in args && args["harm_text"] == harmText
    ensures "model_content" in args <==> modelContent.Some?
    ensures modelContent.Some? ==> args["model_content"] == modelContent.value
  {
    var base := map["user_content" := userContent, "harm_text" := harmText];
    if modelContent.Some? then base["model_content" := modelContent.value] else base
  }

  /**
   * `build_prompt`: the template of the inferred use case with the user
   * content, the harm definition for that same use case and (for a response)
   * the model content substituted verbatim. The format error path is never taken.
   */
  function BuildPrompt(harmType: HarmType, userContent: string, modelContent: Option<string>): (r: string)
    ensures modelContent.None? ==>
      r == PromptOnlyHead + userContent + PromptOnlyMiddle + HarmDefinition(harmType, PromptOnly) + PromptOnlyTail
    ensures modelContent.Some? ==>
      r == PromptResponseHead + userContent + PromptResponseMiddle + modelContent.value
         + PromptResponsePolicy + HarmDefinition(harmType, PromptResponse) + PromptResponseTail
  {
    var useCase := InferUseCase(modelContent);
    var template := TemplateFor(useCase);
    var args := FormatterArgs(userContent, HarmDefinition(harmType, useCase), modelContent);
    var formatted := Format(template, args);
    FormatTemplates(userContent, HarmDefinition(harmType, useCase), modelContent);
    if formatted.Some? then formatted.value else assert false; ""
  }

  /** Both templates format completely with the arguments `build_prompt` supplies. */
  lemma FormatTemplates(userContent: string, harmText: string, modelContent: Option<string>)
    ensures var args := FormatterArgs(userContent, harmText, modelContent);
      modelContent.None? ==>
        Format(PromptOnlyTemplate, args) == Some(PromptOnlyHead + userContent + PromptOnlyMiddle + harmText + PromptOnlyTail)
    ensures var args := FormatterArgs(userContent, harmText, modelContent);
      modelContent.Some? ==>
        Format(PromptResponseTemplate, args)
          == Some(PromptResponseHead + userContent + PromptResponseMiddle + modelContent.value
                  + PromptResponsePolicy + harmText + PromptResponseTail)
  {
    var args := FormatterArgs(userContent, harmText, modelContent);
    if modelContent.None? {
      FormatPromptOnlyShape(PromptOnlyHead, PromptOnlyMiddle, PromptOnlyTail, args);
    } else {
      FormatPromptResponseShape(PromptResponseHead, PromptResponseMiddle, PromptResponsePolicy, PromptResponseTail, args);
    }
  }

  /** Formatting a template that starts with literal text. */
  lemma FormatLit(s: string, rest: seq<Piece>, args: map<string, string>)
    requires Format(rest, args).Some?
    ensures Format([Lit(s)] + rest, args) == Some(s + Format(rest, args).value)
  {
    assert ([Lit(s)] + rest)[1..] == rest;
  }

  /** Formatting a template that starts with a bound field. */
  lemma FormatField(n: string, rest: seq<Piece>, args: map<string, string>)
    requires n in args && Format(rest, args).Some?
    ensures Format([Field(n)] + rest, args) == Some(args[n] + Format(rest, args).value)
  {
    assert ([Field(n)] + rest)[1..] == rest;
  }

  /** Formatting any template of the prompt-only shape. */
  lemma FormatPromptOnlyShape(a: string, b: string, c: string, args: map<string, string>)
    requires "user_content" in args && "harm_text" in args
    ensures Format([Lit(a), Field("user_content"), Lit(b), Field("harm_text"), Lit(c)], args)
         == Some(a + args["user_content"] + b + args["harm_text"] + c)
  {
    var u, h := args["user_content"], args["harm_text"];
    FormatLit(c, [], args);
    assert c + "" == c;
    FormatField("harm_text", [Lit(c)], args);
    FormatLit(b, [Field("harm_text"), Lit(c)], args);
    FormatField("user_content", [Lit(b), Field("harm_text"), Lit(c)], args);
    FormatLit(a, [Field("user_content"), Lit(b), Field("harm_text"), Lit(c)], args);
    assert a + (u + (b + (h + c))) == a + u + b + h + c;
  }

  /** Formatting any template of the prompt-response shape. */
  lemma FormatPromptResponseShape(a: string, b: string, c: string, d: string, args: map<string, string>)
    requires "user_content" in args && "harm_text" in args && "model_content" in args
    ensures Format([Lit(a), Field("user_content"), Lit(b), Field("model_content"), Lit(c), Field("harm_text"), Lit(d)], args)
         == Some(a + args["user_content"] + b + args["model_content"] + c + args["harm_text"] + d)
  {
    var u, m, h := args["user_content"], args["model_content"], args["harm_text"];
    FormatLit(d, [], args);
    assert d + "" == d;
    FormatField("harm_text", [Lit(d)], args);
    FormatLit(c, [Field("harm_text"), Lit(d)], args);
    FormatField("model_content", [Lit(c), Field("harm_text"), Lit(d)], args);
    FormatLit(b, [Field("model_content"), Lit(c), Field("harm_text"), Lit(d)], args);
    FormatField("user_content", [Lit(b), Field("model_content"), Lit(c), Field("harm_text"), Lit(d)], args);
    FormatLit(a, [Field("user_content"), Lit(b), Field("model_content"), Lit(c), Field("harm_text"), Lit(d)], args);
    assert a + (u + (b + (m + (c + (h + d))))) == a + u + b + m + c + h + d;
  }

  /** The response template cannot be formatted without a model response: its field would be missing. */
  lemma ResponseTemplateNeedsModelContent(userContent: string, harmText: string)
    ensures Format(PromptResponseTemplate, FormatterArgs(userContent, harmText, None)).None?
  {
    assert PromptResponseTemplate[3] == Field("model_content");
  }

  /** With the harm type fixed, a prompt-only prompt determines the user content it was built from. */
  lemma BuildPromptDeterminesUserContent(h: HarmType, u1: string, u2: string)
    requires BuildPrompt(h, u1, None) == BuildPrompt(h, u2, None)
    ensures u1 == u2
  {
    CancelFive(PromptOnlyHead, u1, u2, PromptOnlyMiddle, HarmDefinition(h, PromptOnly), PromptOnlyTail);
  }

  /**
   * With the harm type fixed, a prompt-response prompt determines both the
   * user content and the model content once their split point is known.
   */
  lemma BuildPromptDeterminesConversation(h: HarmType, u1: string, u2: string, m1: string, m2: string)
    requires BuildPrompt(h, u1, Some(m1)) == BuildPrompt(h, u2, Some(m2)) && |u1| == |u2|
    ensures u1 == u2 && m1 == m2
  {
    CancelSeven(PromptResponseHead, u1, u2, PromptResponseMiddle, m1, m2,
                PromptResponsePolicy, HarmDefinition(h, PromptResponse), PromptResponseTail);
  }

  /** Equal concatenations with the same outer parts have the same middle part. */
  lemma CancelFive(a: string, x1: string, x2: string, b: string, c: string, d: string)
    requires a + x1 + b + c + d == a + x2 + b + c + d
    ensures x1 == x2
  {
    var s1, s2 := a + x1 + b + c + d, a + x2 + b + c + d;
    assert |x1| == |x2|;
    assert s1[|a|..|a| + |x1|] == x1;
    assert s2[|a|..|a| + |x2|] == x2;
  }

  /** Equal concatenations with the same fixed parts and a first variable part of known length agree on both variable parts. */
  lemma CancelSeven(a: string, x1: string, x2: string, b: string, y1: string, y2: string, c: string, e: string, d: string)
    requires a + x1 + b + y1 + c + e + d == a + x2 + b + y2 + c + e + d && |x1| == |x2|
    ensures x1 == x2 && y1 == y2
  {
    var s1, s2 := a + x1 + b + y1 + c + e + d, a + x2 + b + y2 + c + e + d;
    var k := |a| + |x1| + |b|;
    assert |y1| == |y2|;
    assert s1[|a|..|a| + |x1|] == x1;
    assert s2[|a|..|a| + |x2|] == x2;
    assert s1[k..k + |y1|] == y1;
    assert s2[k..k + |y2|] == y2;
  }
}
