/** The conversation responder: the keyword fallback reply, the message list sent to the
    completion service, and the choice between the service's text and the fallback. */
module Responder {
  import opened Wrappers
  import opened Text

  /** The reply used when no keyword occurs. */
  const DefaultReply: string :=
    "I'm here to help with PPE safety! I can assist with product selection, safety regulations, hazard assessments, and proper usage guidelines. Please ask about specific equipment or safety scenarios."

  /** The canned replies, keyed by keyword, in declaration order. The last key is the literal
      word "default", whose reply is the default reply. */
  const Responses: seq<(string, string)> := [
    ("construction",
     "For construction work, OSHA requires: hard hat (ANSI Z89.1), safety glasses, high-vis vest, steel-toe boots (ASTM F2413), and gloves. Additional PPE needed for specific tasks: hearing protection for loud areas, respirators for dust, fall protection for heights over 6 feet."),
    ("hard hat",
     "Hard hats must be ANSI Z89.1 certified. Types: Class G (general, 2,200V), Class E (electrical, 20,000V), Class C (conductive, no voltage protection). Replace after any significant impact or every 5 years."),
    ("glove",
     "Select gloves based on hazard: Chemical - nitrile/rubber, Cut - Kevlar/metal mesh, Heat - aluminized/leather, Cold - insulated, General - leather/canvas. Ensure proper fit and dexterity."),
    ("chemical glove",
     "For chemical protection: Nitrile for oils/solvents, Butyl rubber for ketones/esters, Neoprene for acids/alcohols, Viton for chlorinated/aromatic solvents. Check chemical compatibility charts."),
    ("respirator",
     "Respirator types: N95 for particles, half-face for gases/vapors with cartridges, full-face for eye/respiratory combo, PAPR for comfort in extended use. Fit testing required annually."),
    ("mask",
     "Mask types: Surgical - fluid resistance, N95 - 95% particle filtration, KN95 - Chinese standard, FFP2 - European standard. Ensure proper seal and replace when damaged/soiled."),
    ("fall",
     "Fall protection system: Full-body harness, shock-absorbing lanyard (6 ft max), anchor point (5,000 lb rating), rescue plan. Inspect before each use. OSHA requires training."),
    ("harness",
     "Harness features: Dorsal D-ring for fall arrest, shoulder D-rings for retrieval, side D-rings for positioning, chest D-ring for ladder climbing. Fit: 1-2 fingers between leg straps and thighs."),
    ("safety shoe",
     "Safety shoe standards: ASTM F2413 for impact/compression, EH for electrical hazard, SD for static dissipative, PR for puncture resistant. Match to workplace hazards."),
    ("goggle",
     "Eye protection: Safety glasses for impact, goggles for chemical splash, face shields for face/eye combo, welding helmets for arc flash. ANSI Z87.1 certification required."),
    ("osha",
     "Key OSHA PPE standards: 1910.132 (General Requirements), 1910.133 (Eye/Face), 1910.134 (Respiratory), 1910.135 (Head), 1910.136 (Foot), 1910.137 (Electrical), 1910.138 (Hand)."),
    ("regulation",
     "PPE regulations vary by: Industry (construction, healthcare, manufacturing), Country (OSHA-US, CE-Europe), Hazard type. Always consult local regulations and conduct hazard assessments."),
    ("default", DefaultReply)
  ]

  /** Index of the first entry of `table` whose key occurs in `message`. */
  function FirstMatch(table: seq<(string, string)>, message: string): (r: Option<nat>)
    ensures r.Some? ==>
      && r.value < |table|
      && IsSubstring(table[r.value].0, message)
      && forall j :: 0 <= j < r.value ==> !IsSubstring(table[j].0, message)
    ensures r.None? ==> forall j :: 0 <= j < |table| ==> !IsSubstring(table[j].0, message)
  {
    if table == [] then None
    else if Includes(table[0].0, message) then Some(0)
    else
      match FirstMatch(table[1..], message)
      case None => None
      case Some(i) => Some(i + 1)
  }

  /** `generateFallbackResponse`: the reply of the first key, in declaration order, that occurs
      in the lower-cased message, or the default reply when none does. */
  function Fallback(userMessage: string): (r: string)
    ensures forall i :: 0 <= i < |Responses| && IsSubstring(Responses[i].0, ToLower(userMessage)) &&
                        (forall j :: 0 <= j < i ==> !IsSubstring(Responses[j].0, ToLower(userMessage)))
                        ==> r == Responses[i].1
    ensures (forall j :: 0 <= j < |Responses| ==> !IsSubstring(Responses[j].0, ToLower(userMessage)))
            ==> r == DefaultReply
  {
    match FirstMatch(Responses, ToLower(userMessage))
    case Some(i) => Responses[i].1
    case None => DefaultReply
  }

  /** Each canned reply is a different text. */
  lemma RepliesDistinct()
    ensures forall i, j :: 0 <= i < j < |Responses| ==> Responses[i].1 != Responses[j].1
  {
    assert |Responses[0].1| == 273 && |Responses[1].1| == 204 && |Responses[2].1| == 186;
    assert |Responses[3].1| == 191 && |Responses[4].1| == 182 && |Responses[5].1| == 174;
    assert |Responses[6].1| == 172 && |Responses[7].1| == 192 && |Responses[8].1| == 165;
    assert |Responses[9].1| == 170 && |Responses[10].1| == 175 && |Responses[11].1| == 184;
    assert |Responses[12].1| == 196;
  }

  /** The "chemical glove" reply is never given: a message that contains "chemical glove" also
      contains "glove", whose entry is declared earlier. */
  lemma ChemicalGloveReplyUnreachable(userMessage: string)
    ensures Fallback(userMessage) != Responses[3].1
  {
    var m := ToLower(userMessage);
    assert OccursAt(Responses[2].0, Responses[3].0, 9);
    if IsSubstring(Responses[3].0, m) {
      SubstringTransitive(Responses[2].0, Responses[3].0, m);
    }
    RepliesDistinct();
    assert DefaultReply == Responses[12].1;
  }

  /** Every key is written in lower case. */
  lemma KeysLowerCase()
    ensures forall i :: 0 <= i < |Responses| ==> IsLowerCase(Responses[i].0)
  {
    forall i | 0 <= i < |Responses|
      ensures IsLowerCase(Responses[i].0)
    {
      if i < 6 {
        LowerCaseKeyA(Responses[i].0);
      } else {
        LowerCaseKeyB(Responses[i].0);
      }
    }
  }

  lemma LowerCaseKeyA(key: string)
    requires key in ["construction", "hard hat", "glove", "chemical glove", "respirator", "mask"]
    ensures IsLowerCase(key)
  {
  }

  lemma LowerCaseKeyB(key: string)
    requires key in ["fall", "harness", "safety shoe", "goggle", "osha", "regulation", "default"]
    ensures IsLowerCase(key)
  {
  }

  /** The keys match in any mixture of upper and lower case: the reply is that of the first key,
      in declaration order, that the message spells ignoring case. */
  lemma {:induction false} FallbackIgnoresCase(userMessage: string, i: nat)
    requires i < |Responses|
    requires exists k :: OccursIgnoringCaseAt(Responses[i].0, userMessage, k)
    requires forall j, k :: 0 <= j < i ==> !OccursIgnoringCaseAt(Responses[j].0, userMessage, k)
    ensures Fallback(userMessage) == Responses[i].1
  {
    KeysLowerCase();
    IncludesLoweredIgnoresCase(Responses[i].0, userMessage);
    forall j | 0 <= j < i
      ensures !IsSubstring(Responses[j].0, ToLower(userMessage))
    {
      IncludesLoweredIgnoresCase(Responses[j].0, userMessage);
    }
  }

  /** A message that spells no key in any case gets the default reply. */
  lemma {:induction false} FallbackDefaultIgnoresCase(userMessage: string)
    requires forall j, k :: 0 <= j < |Responses| ==> !OccursIgnoringCaseAt(Responses[j].0, userMessage, k)
    ensures Fallback(userMessage) == DefaultReply
  {
    KeysLowerCase();
    forall j | 0 <= j < |Responses|
      ensures !IsSubstring(Responses[j].0, ToLower(userMessage))
    {
      IncludesLoweredIgnoresCase(Responses[j].0, userMessage);
    }
  }

  /** Who wrote a message sent to the completion service. */
  datatype Role = System | User | Assistant

  datatype ChatMessage = ChatMessage(role: Role, content: string)

  /** One earlier turn of the conversation, as the caller sends it. */
  datatype Turn = Turn(sender: string, text: string)

  /** The fixed system instruction, with the indentation of the source's template literal. */
  const SystemPrompt: string :=
    "You are an AI Safety Assistant for PPE Marts, a Personal Protective Equipment affiliate website. \n" +
    "          You provide expert advice on safety equipment, regulations (OSHA, ANSI, etc.), and product recommendations.\n" +
    "          \n" +
    "          Available PPE categories: \n" +
    "          1. Respiratory (masks, respirators)\n" +
    "          2. Head Protection (helmets, hard hats)\n" +
    "          3. Eye Protection (goggles, glasses)\n" +
    "          4. Hearing Protection (ear plugs, muffs)\n" +
    "          5. Hand Protection (gloves)\n" +
    "          6. Body Protection (vests, suits, gowns)\n" +
    "          7. Foot Protection (safety shoes, boots)\n" +
    "          8. Fall Protection (harnesses, lanyards)\n" +
    "          \n" +
    "          Guidelines:\n" +
    "          - Always prioritize safety\n" +
    "          - Mention relevant standards when applicable\n" +
    "          - Recommend specific product types, not brands unless asked\n" +
    "          - Be concise but thorough\n" +
    "          - Include practical usage tips\n" +
    "          - When recommending products, suggest the category first\n" +
    "          \n" +
    "          Format responses naturally and helpfully."

  /** The earlier turns as chat messages: a turn whose sender is "user" becomes a user message,
      any other sender an assistant message, and each keeps its text. */
  function HistoryMessages(history: seq<Turn>): (r: seq<ChatMessage>)
    ensures |r| == |history|
    ensures forall i :: 0 <= i < |history| ==>
      && r[i].content == history[i].text
      && r[i].role != System
      && (r[i].role == User <==> history[i].sender == "user")
  {
    if history == [] then []
    else
      var rest := HistoryMessages(history[1..]);
      [ChatMessage(if history[0].sender == "user" then User else Assistant, history[0].text)] + rest
  }

  /** The message list of one completion request: the system instruction, then the history
      (absent and empty history add nothing), then the new message as a user message. */
  function Messages(history: Option<seq<Turn>>, userMessage: string): (r: seq<ChatMessage>)
    ensures var h := if history.Some? then history.value else [];
      && |r| == |h| + 2
      && r[0] == ChatMessage(System, SystemPrompt)
      && r[|r| - 1] == ChatMessage(User, userMessage)
      && r[1..|r| - 1] == HistoryMessages(h)
  {
    var h := if history.Some? then history.value else [];
    var r := [ChatMessage(System, SystemPrompt)] + HistoryMessages(h) + [ChatMessage(User, userMessage)];
    assert r[1..|r| - 1] == HistoryMessages(h);
    r
  }

  /** `generateAIResponse`. With a non-empty API key the completion service is asked once; its
      text is returned when it answers, and the fallback reply when it fails (`None`). Without a
      key the fallback reply is returned directly. */
  function GenerateResponse(userMessage: string, history: Option<seq<Turn>>, apiKey: Option<string>,
                            complete: seq<ChatMessage> -> Option<string>): (r: string)
    ensures apiKey.None? || apiKey.value == "" ==> r == Fallback(userMessage)
    ensures apiKey.Some? && apiKey.value != "" ==>
      match complete(Messages(history, userMessage))
      case Some(text) => r == text
      case None => r == Fallback(userMessage)
    ensures r == Fallback(userMessage) || complete(Messages(history, userMessage)) == Some(r)
  {
    if apiKey.Some? && apiKey.value != "" then
      match complete(Messages(history, userMessage))
      case Some(text) => text
      case None => Fallback(userMessage)
    else Fallback(userMessage)
  }
}
