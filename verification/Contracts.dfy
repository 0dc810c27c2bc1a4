/**
 The message layout of each service and the App variables it sends.

 A translator accepts some layouts of roles with non-blank texts and sends fixed variables; the
 contract table lists the variables of each service. Both are stated apart from each other here and
 shown to agree, and the loops of the program are shown to accept exactly the layouts.
 */
module Contracts {
  import opened Options
  import opened Text
  import opened Slots

  datatype Service =
    | General | Custom | WebsiteSummary | ImageProcessing | Trimmed | TwoHundred | V1 | FillTable
    | Unknown(name: string)

  type Inputs = map<string, string>

  const IMAGE_LIST := "input_image_list"
  const MAX_IMAGES := 10

  /** The text inputs, and the references of the images; the gateway sends these as one more variable. */
  datatype Sent = Sent(inputs: Inputs, images: seq<string>)

  datatype ServiceError =
    | WrongLayout | BlankText(index: nat) | NotAUrl | NoImage | TooManyImages(count: nat) | Unsupported
    | NotTranslated(refusal: Refusal)

  // ---- layouts ----

  /** A user message, alone or after a system message. */
  predicate OneTurn(messages: seq<Message>) {
    || (|messages| == 1 && messages[0].role == "user")
    || (|messages| == 2 && messages[0].role == "system" && messages[1].role == "user")
  }

  function UserText(messages: seq<Message>): string
    requires messages != []
  {
    Trim(messages[|messages| - 1].content)
  }

  function SystemText(messages: seq<Message>): string {
    if |messages| == 2 then Trim(messages[0].content) else ""
  }

  predicate IsUrl(u: string) {
    HasPrefix(u, "http://") || HasPrefix(u, "https://")
  }

  function AllImages(messages: seq<Message>): seq<string> {
    if messages == [] then [] else AllImages(messages[..|messages| - 1]) + messages[|messages| - 1].images
  }

  const FILL_KEYS: seq<string> :=
    ["assistant_0", "user_1", "assistant_1", "user_2", "assistant_2", "user_3", "assistant_prefill"]

  const FILL_ROLES: seq<string> := ["assistant", "user", "assistant", "user", "assistant", "user", "assistant"]

  /** The fill-table layouts: system, the optional user_0, then the full alternation. */
  predicate FillLayout(messages: seq<Message>) {
    || Wanted(messages) == ["system"] + FILL_ROLES
    || Wanted(messages) == ["system", "user"] + FILL_ROLES
  }

  /** How many messages precede the alternation. */
  function FillStart(messages: seq<Message>): nat {
    if |messages| >= 2 && messages[1].role == "user" then 2 else 1
  }

  predicate Blank(m: Message) {
    Trim(m.content) == ""
  }

  /** Everything but user_0 says something. */
  predicate FillTexts(messages: seq<Message>) {
    forall i :: 0 <= i < |messages| && Blank(messages[i]) ==> i == 1 && FillStart(messages) == 2
  }

  ghost predicate Accepts(service: Service, messages: seq<Message>) {
    match service
    case General => |messages| == 1 && OneTurn(messages) && UserText(messages) != ""
    case Custom => OneTurn(messages) && UserText(messages) != ""
    case WebsiteSummary => OneTurn(messages) && IsUrl(UserText(messages))
    case ImageProcessing => OneTurn(messages) && UserText(messages) != "" && 1 <= |AllImages(messages)| <= MAX_IMAGES
    case Trimmed => messages != [] && Assignable(SLOT_NAMES, messages)
    case TwoHundred => messages != [] && Assignable(SlotNames200(), messages)
    case V1 => messages != [] && Assignable(SlotNames200(), messages)
    case FillTable => FillLayout(messages) && FillTexts(messages)
    case Unknown(_) => false
  }

  predicate SaysSomething(m: Message) {
    exists c <- m.content :: !IsSpace(c)
  }

  /** The one-turn services by the roles of their messages: one user message that says something, or a system message before it. */
  lemma AcceptedRoles(messages: seq<Message>)
    ensures Accepts(General, messages) <==> Wanted(messages) == ["user"] && SaysSomething(messages[0])
    ensures Accepts(Custom, messages) <==>
        (Wanted(messages) == ["user"] && SaysSomething(messages[0])) || (Wanted(messages) == ["system", "user"] && SaysSomething(messages[1]))
    ensures Accepts(ImageProcessing, messages) <==>
        Accepts(Custom, messages) && |AllImages(messages)| in {1, 2, 3, 4, 5, 6, 7, 8, 9, 10}
    ensures Accepts(WebsiteSummary, messages) <==>
        (Wanted(messages) == ["user"] || Wanted(messages) == ["system", "user"]) && IsUrl(Trim(messages[|messages| - 1].content))
    ensures Accepts(TwoHundred, messages) <==> messages != [] && Assignable(SlotNames200(), messages)
    ensures Accepts(V1, messages) <==> Accepts(TwoHundred, messages)
    ensures Accepts(Trimmed, messages) <==> messages != [] && Assignable(SLOT_NAMES, messages)
    ensures forall name :: !Accepts(Unknown(name), messages)
  {
    if messages != [] {
      var last := messages[|messages| - 1];
      TrimIsEmpty(last.content);
    }
    RolesOfOne(messages);
    RolesOfTwo(messages);
  }

  lemma RolesOfOne(messages: seq<Message>)
    ensures Wanted(messages) == ["user"] <==> |messages| == 1 && messages[0].role == "user"
  {
    if |messages| == 1 { assert Wanted(messages) == [messages[0].role]; }
  }

  lemma RolesOfTwo(messages: seq<Message>)
    ensures Wanted(messages) == ["system", "user"] <==>
        |messages| == 2 && messages[0].role == "system" && messages[1].role == "user"
  {
    if |messages| == 2 { assert Wanted(messages) == [messages[0].role, messages[1].role]; }
    if Wanted(messages) == ["system", "user"] { assert Wanted(messages)[0] == "system" && Wanted(messages)[1] == "user"; }
  }

  /** An address is any text that begins with one of the two schemes. */
  lemma UrlsBegin(rest: string)
    ensures IsUrl("http://" + rest) && IsUrl("https://" + rest)
  {
    PrefixIs("http://" + rest, "http://", rest);
    PrefixIs("https://" + rest, "https://", rest);
  }

  // ---- the contract table ----

  datatype ContractVars = ContractVars(required: seq<string>, optional: seq<string>)

  /** An unknown service is given the variables of the custom contract. */
  function ContractVarsFor(service: Service): ContractVars {
    match service
    case General => ContractVars(["user_0"], [])
    case WebsiteSummary => ContractVars(["request_url"], ["request_instruction"])
    case ImageProcessing => ContractVars(["user_request", IMAGE_LIST], ["system_prompt"])
    case Trimmed => ContractVars([], [
        "system_prompt", "user_0",
        "assistant_1", "user_1", "assistant_2", "user_2", "assistant_3", "user_3", "assistant_4", "user_4",
        "assistant_5", "user_5", "assistant_6", "user_6", "assistant_7", "user_7", "assistant_8", "user_8",
        "assistant_9", "user_9", "assistant_10", "user_10"])
    case TwoHundred => ContractVars([], SlotNames200())
    case V1 => ContractVars([], SlotNames200())
    case FillTable =>
      ContractVars(["system_prompt", "assistant_0", "user_1", "assistant_1", "user_2", "assistant_2", "user_3", "assistant_prefill"],
                   ["user_0"])
    case Custom => ContractVars(["user_0"], ["system_prompt"])
    case Unknown(_) => ContractVars(["user_0"], ["system_prompt"])
  }

  /** What the contract of each small service requires, and what it may get besides. */
  lemma ContractTable()
    ensures ContractVarsFor(General) == ContractVars(["user_0"], [])
    ensures ContractVarsFor(Custom) == ContractVars(["user_0"], ["system_prompt"])
    ensures ContractVarsFor(WebsiteSummary) == ContractVars(["request_url"], ["request_instruction"])
    ensures ContractVarsFor(ImageProcessing) == ContractVars(["user_request", "input_image_list"], ["system_prompt"])
    ensures |ContractVarsFor(FillTable).required| == 8 && ContractVarsFor(FillTable).optional == ["user_0"]
    ensures forall name :: ContractVarsFor(Unknown(name)) == ContractVarsFor(Custom)
  {}

  function Covered(service: Service): set<string> {
    var vars := ContractVarsFor(service);
    (set v | v in vars.required) + (set v | v in vars.optional)
  }

  /** The variables a request carries once the gateway has added the image list. */
  function SentVars(sent: Sent): set<string> {
    sent.inputs.Keys + if sent.images != [] then {IMAGE_LIST} else {}
  }

  /** Exactly the contract's variables are sent, and the required texts are not empty. */
  ghost predicate MeetsContract(service: Service, sent: Sent) {
    && SentVars(sent) == Covered(service)
    && forall v <- ContractVarsFor(service).required ::
         if v == IMAGE_LIST then 1 <= |sent.images| <= MAX_IMAGES else v in sent.inputs && sent.inputs[v] != ""
  }

  // ---- the translators ----

  method TranslateGeneral(messages: seq<Message>) returns (r: Result<Inputs, ServiceError>)
    ensures r.Ok? <==> Accepts(General, messages)
    ensures r.Ok? ==> r.value == map["user_0" := UserText(messages)]
  {
    if |messages| != 1 || messages[0].role != "user" {
      return Err(WrongLayout);
    }
    var content := Trim(messages[0].content);
    if content == "" {
      return Err(BlankText(0));
    }
    return Ok(map["user_0" := content]);
  }

  method TranslateCustom(messages: seq<Message>) returns (r: Result<Inputs, ServiceError>)
    ensures r.Ok? <==> Accepts(Custom, messages)
    ensures r.Ok? ==> r.value == map["system_prompt" := SystemText(messages), "user_0" := UserText(messages)]
  {
    var inputs := map["system_prompt" := "", "user_0" := ""];
    if |messages| == 1 {
      if messages[0].role != "user" {
        return Err(WrongLayout);
      }
      inputs := inputs["user_0" := Trim(messages[0].content)];
    } else if |messages| == 2 {
      if messages[0].role != "system" || messages[1].role != "user" {
        return Err(WrongLayout);
      }
      inputs := inputs["system_prompt" := Trim(messages[0].content)];
      inputs := inputs["user_0" := Trim(messages[1].content)];
    } else {
      return Err(WrongLayout);
    }
    if inputs["user_0"] == "" {
      return Err(BlankText(|messages| - 1));
    }
    return Ok(inputs);
  }

  method TranslateWebsiteSummary(messages: seq<Message>) returns (r: Result<Inputs, ServiceError>)
    ensures r.Ok? <==> Accepts(WebsiteSummary, messages)
    ensures r.Ok? ==> r.value == map["request_instruction" := SystemText(messages), "request_url" := UserText(messages)]
  {
    var inputs := map["request_url" := "", "request_instruction" := ""];
    if |messages| == 1 {
      if messages[0].role != "user" {
        return Err(WrongLayout);
      }
      inputs := inputs["request_url" := Trim(messages[0].content)];
    } else if |messages| == 2 {
      if messages[0].role != "system" || messages[1].role != "user" {
        return Err(WrongLayout);
      }
      inputs := inputs["request_instruction" := Trim(messages[0].content)];
      inputs := inputs["request_url" := Trim(messages[1].content)];
    } else {
      return Err(WrongLayout);
    }
    var u := inputs["request_url"];
    if u == "" || !(HasPrefix(u, "http://") || HasPrefix(u, "https://")) {
      return Err(NotAUrl);
    }
    return Ok(inputs);
  }

  method TranslateImageProcessing(messages: seq<Message>) returns (r: Result<Sent, ServiceError>)
    ensures r.Ok? <==> Accepts(ImageProcessing, messages)
    ensures r.Ok? ==> r.value.images == AllImages(messages)
    ensures r.Ok? ==> r.value.inputs == map["system_prompt" := SystemText(messages), "user_request" := UserText(messages)]
  {
    var inputs := map["system_prompt" := "", "user_request" := ""];
    var images: seq<string> := [];
    for i := 0 to |messages|
      invariant images == AllImages(messages[..i])
    {
      assert messages[..i + 1][..i] == messages[..i];
      images := images + messages[i].images;
    }
    assert messages[..|messages|] == messages;
    if |messages| == 1 {
      if messages[0].role != "user" {
        return Err(WrongLayout);
      }
      inputs := inputs["user_request" := Trim(messages[0].content)];
    } else if |messages| == 2 {
      if messages[0].role != "system" || messages[1].role != "user" {
        return Err(WrongLayout);
      }
      inputs := inputs["system_prompt" := Trim(messages[0].content)];
      inputs := inputs["user_request" := Trim(messages[1].content)];
    } else {
      return Err(WrongLayout);
    }
    if inputs["user_request"] == "" {
      return Err(BlankText(|messages| - 1));
    }
    if |images| == 0 {
      return Err(NoImage);
    }
    if |images| > MAX_IMAGES {
      return Err(TooManyImages(|images|));
    }
    return Ok(Sent(inputs, images));
  }

  /** The first `done` messages are in the slots of those keys, and nothing else changed. */
  ghost predicate Fills(inputs: Inputs, blank: Inputs, keys: seq<string>, rest: seq<Message>, done: nat) {
    && done <= |keys| && done <= |rest|
    && inputs.Keys == blank.Keys
    && (forall j :: 0 <= j < done ==> keys[j] in inputs && inputs[keys[j]] == Trim(rest[j].content))
    && (forall v <- blank :: v !in keys ==> inputs[v] == blank[v])
  }

  predicate Fits(roles: seq<string>, rest: seq<Message>, k: nat)
    requires k < |rest| && k < |roles|
  {
    rest[k].role == roles[k] && !Blank(rest[k])
  }

  predicate FitsAll(roles: seq<string>, rest: seq<Message>) {
    |rest| == |roles| && forall k :: 0 <= k < |rest| ==> Fits(roles, rest, k)
  }

  /** Every slot is required: each takes one non-blank message of its role. */
  method FillAlternation(keys: seq<string>, roles: seq<string>, rest: seq<Message>, blank: Inputs)
      returns (r: Result<Inputs, ServiceError>)
    requires Distinct(keys) && |roles| == |keys| && forall v <- keys :: v in blank
    ensures r.Ok? <==> FitsAll(roles, rest)
    ensures r.Ok? ==> Fills(r.value, blank, keys, rest, |keys|)
  {
    if |rest| != |keys| {
      return Err(WrongLayout);
    }
    var inputs := blank;
    for j := 0 to |rest|
      invariant Fills(inputs, blank, keys, rest, j)
      invariant forall k :: 0 <= k < j ==> Fits(roles, rest, k)
    {
      if rest[j].role != roles[j] {
        assert !Fits(roles, rest, j);
        return Err(WrongLayout);
      }
      var content := Trim(rest[j].content);
      if content == "" {
        assert !Fits(roles, rest, j);
        return Err(BlankText(j));
      }
      inputs := inputs[keys[j] := content];
    }
    return Ok(inputs);
  }

  function NoFills(): Inputs {
    map["system_prompt" := "", "user_0" := "", "assistant_0" := "", "user_1" := "", "assistant_1" := "",
        "user_2" := "", "assistant_2" := "", "user_3" := "", "assistant_prefill" := ""]
  }

  /** The two texts before the alternation. */
  function FillHead(messages: seq<Message>): Inputs
    requires messages != []
  {
    NoFills()["system_prompt" := Trim(messages[0].content)]
             ["user_0" := if FillStart(messages) == 2 then Trim(messages[1].content) else ""]
  }

  /** The nine variables: the head, and each text of the alternation under its own key. */
  ghost predicate FillTableSends(inputs: Inputs, messages: seq<Message>) {
    && messages != [] && FillStart(messages) <= |messages|
    && Fills(inputs, FillHead(messages), FILL_KEYS, messages[FillStart(messages)..], |FILL_KEYS|)
  }

  lemma HeadHasAllKeys(messages: seq<Message>)
    requires messages != []
    ensures FillHead(messages).Keys == (set v | v in FILL_KEYS) + {"system_prompt", "user_0"}
  {}

  method TranslateFillTable(messages: seq<Message>) returns (r: Result<Inputs, ServiceError>)
    ensures r.Ok? <==> Accepts(FillTable, messages)
    ensures r.Ok? ==> FillTableSends(r.value, messages)
  {
    var inputs := NoFills();
    FillStartsWithSystem(messages);
    if |messages| == 0 || messages[0].role != "system" {
      return Err(WrongLayout);
    }
    inputs := inputs["system_prompt" := Trim(messages[0].content)];
    if inputs["system_prompt"] == "" {
      assert Blank(messages[0]);
      return Err(BlankText(0));
    }
    var rest := messages[1..];
    if |rest| == 0 {
      return Err(WrongLayout);
    }
    var hasUser0 := rest[0].role == "user";
    if hasUser0 {
      inputs := inputs["user_0" := Trim(rest[0].content)];
      rest := rest[1..];
    }
    FillByRest(messages);
    HeadHasAllKeys(messages);
    assert inputs == FillHead(messages) && rest == messages[FillStart(messages)..];
    r := FillAlternation(FILL_KEYS, FILL_ROLES, rest, inputs);
  }

  /** The layout, checked the way the loop does: the system text, then each of the seven. */
  lemma FillByRest(messages: seq<Message>)
    requires |messages| >= 2 && messages[0].role == "system" && !Blank(messages[0])
    ensures Accepts(FillTable, messages) <==> FitsAll(FILL_ROLES, messages[FillStart(messages)..])
  {
    var start := FillStart(messages);
    var rest := messages[start..];
    LayoutOfRest(messages);
    FitsByParts(FILL_ROLES, rest);
    assert FillTexts(messages) <==> forall k :: 0 <= k < |rest| ==> !Blank(rest[k]) by {
      if forall k :: 0 <= k < |rest| ==> !Blank(rest[k]) {
        forall i | start <= i < |messages|
          ensures !Blank(messages[i])
        {
          assert messages[i] == rest[i - start];
        }
      }
      if FillTexts(messages) {
        forall k | 0 <= k < |rest|
          ensures !Blank(rest[k])
        {
          assert rest[k] == messages[start + k];
        }
      }
    }
  }

  lemma FitsByParts(roles: seq<string>, rest: seq<Message>)
    ensures FitsAll(roles, rest) <==> Wanted(rest) == roles && forall k :: 0 <= k < |rest| ==> !Blank(rest[k])
  {
    if FitsAll(roles, rest) {
      forall k | 0 <= k < |rest|
        ensures Wanted(rest)[k] == roles[k] && !Blank(rest[k])
      {
        assert Fits(roles, rest, k);
      }
      assert Wanted(rest) == roles;
    }
    if Wanted(rest) == roles {
      assert |rest| == |roles|;
      assert forall k :: 0 <= k < |rest| ==> rest[k].role == Wanted(rest)[k];
    }
  }

  lemma FillStartsWithSystem(messages: seq<Message>)
    ensures FillLayout(messages) ==> |messages| >= 2 && messages[0].role == "system"
  {
    if FillLayout(messages) {
      assert |Wanted(messages)| == |messages| >= 8 && Wanted(messages)[0] == "system";
    }
  }

  lemma LayoutOfRest(messages: seq<Message>)
    requires |messages| >= 2 && messages[0].role == "system"
    ensures FillLayout(messages) <==> Wanted(messages[FillStart(messages)..]) == FILL_ROLES
  {
    var start := FillStart(messages);
    var rest := messages[start..];
    if start == 1 {
      assert Wanted(messages) == ["system"] + Wanted(rest);
      SuffixOf(["system"], Wanted(rest), FILL_ROLES);
      assert Wanted(messages)[1] != "user";
    } else {
      assert Wanted(messages) == ["system", "user"] + Wanted(rest);
      SuffixOf(["system", "user"], Wanted(rest), FILL_ROLES);
      assert Wanted(messages)[1] == "user";
    }
  }

  // ---- dispatch by service ----

  /** The slots of the template a slot service uses. */
  function TemplateOf(service: Service): seq<string>
    requires service.Trimmed? || service.TwoHundred? || service.V1?
  {
    if service.Trimmed? then SLOT_NAMES else SlotNames200()
  }

  /** What a successful translation sends, service by service. */
  ghost predicate Sending(service: Service, messages: seq<Message>, sent: Sent) {
    Accepts(service, messages) &&
    match service
    case General => sent == Sent(map["user_0" := UserText(messages)], [])
    case Custom => sent == Sent(map["system_prompt" := SystemText(messages), "user_0" := UserText(messages)], [])
    case WebsiteSummary =>
      sent == Sent(map["request_instruction" := SystemText(messages), "request_url" := UserText(messages)], [])
    case ImageProcessing =>
      sent == Sent(map["system_prompt" := SystemText(messages), "user_request" := UserText(messages)], AllImages(messages))
    case FillTable => FillTableSends(sent.inputs, messages) && sent.images == []
    case Unknown(_) => false
    case _ => Outcome(TemplateOf(service), messages, Ok(sent.inputs)) && sent.images == []
  }

  method TranslateMainDialogue(service: Service, messages: seq<Message>) returns (r: Result<Sent, ServiceError>)
    requires service.Trimmed? || service.TwoHundred? || service.V1?
    ensures r.Ok? <==> Accepts(service, messages)
    ensures r.Ok? ==> Sending(service, messages, r.value)
  {
    var t;
    if service.Trimmed? {
      t := TranslateToSlots(messages);
    } else {
      t := TranslateToSlots200(messages);
    }
    SucceedsIffAssignable(TemplateOf(service), messages, t);
    r := FromSlots(t);
  }

  method TranslateForService(service: Service, messages: seq<Message>) returns (r: Result<Sent, ServiceError>)
    ensures r.Ok? <==> Accepts(service, messages)
    ensures r.Ok? ==> Sending(service, messages, r.value)
  {
    match service
    case General => var t := TranslateGeneral(messages); r := WithoutImages(t);
    case Custom => var t := TranslateCustom(messages); r := WithoutImages(t);
    case WebsiteSummary => var t := TranslateWebsiteSummary(messages); r := WithoutImages(t);
    case ImageProcessing => r := TranslateImageProcessing(messages);
    case Trimmed => r := TranslateMainDialogue(service, messages);
    case TwoHundred => r := TranslateMainDialogue(service, messages);
    case V1 => r := TranslateMainDialogue(service, messages);
    case FillTable => var t := TranslateFillTable(messages); r := WithoutImages(t);
    case Unknown(_) => r := Err(Unsupported);
  }

  function WithoutImages(t: Result<Inputs, ServiceError>): Result<Sent, ServiceError> {
    match t
    case Ok(inputs) => Ok(Sent(inputs, []))
    case Err(e) => Err(e)
  }

  function FromSlots(t: Result<Inputs, Refusal>): Result<Sent, ServiceError> {
    match t
    case Ok(inputs) => Ok(Sent(inputs, []))
    case Err(e) => Err(NotTranslated(e))
  }

  // ---- agreement of the translators with the contract table ----

  lemma FillTableMeetsContract(messages: seq<Message>, sent: Sent)
    requires Sending(FillTable, messages, sent)
    ensures MeetsContract(FillTable, sent)
  {
    FillIsCovered(messages, sent);
    FillVars();
    forall v <- ContractVarsFor(FillTable).required
      ensures v in sent.inputs && sent.inputs[v] != ""
    {
      RequiredFillIsSent(messages, sent, v);
    }
    TextsMeet(FillTable, sent);
  }

  /** A contract without an image list is met by sending its variables, the required ones with text. */
  lemma TextsMeet(service: Service, sent: Sent)
    requires SentVars(sent) == Covered(service) && IMAGE_LIST !in ContractVarsFor(service).required
    requires forall v <- ContractVarsFor(service).required :: v in sent.inputs && sent.inputs[v] != ""
    ensures MeetsContract(service, sent)
  {}

  lemma FillIsCovered(messages: seq<Message>, sent: Sent)
    requires Sending(FillTable, messages, sent)
    ensures SentVars(sent) == Covered(FillTable)
  {
    HeadHasAllKeys(messages);
    SystemIsSent(messages, sent);
    CoveredByFill();
  }

  lemma RequiredFillIsSent(messages: seq<Message>, sent: Sent, v: string)
    requires Sending(FillTable, messages, sent) && v in ContractVarsFor(FillTable).required
    ensures v in sent.inputs && sent.inputs[v] != ""
  {
    SystemIsSent(messages, sent);
    FillVars();
    assert v in (set w | w in ContractVarsFor(FillTable).required);
    if v != "system_prompt" { FillKeyIsSent(messages, sent, v); }
  }

  lemma CoveredByFill()
    ensures Covered(FillTable) == (set v | v in FILL_KEYS) + {"system_prompt", "user_0"}
  {
    FillVars();
    assert (set v | v in ContractVarsFor(FillTable).optional) == {"user_0"};
  }

  lemma SystemIsSent(messages: seq<Message>, sent: Sent)
    requires Sending(FillTable, messages, sent)
    ensures sent.inputs.Keys == FillHead(messages).Keys
    ensures "system_prompt" in sent.inputs && sent.inputs["system_prompt"] != ""
  {
    FillStartsWithSystem(messages);
    assert !Blank(messages[0]);
    assert "system_prompt" in FillHead(messages) && "system_prompt" !in FILL_KEYS;
  }

  lemma FillKeyIsSent(messages: seq<Message>, sent: Sent, v: string)
    requires Sending(FillTable, messages, sent) && v in FILL_KEYS
    ensures v in sent.inputs && sent.inputs[v] != ""
  {
    FillStartsWithSystem(messages);
    assert !Blank(messages[0]);
    FillByRest(messages);
    var rest := messages[FillStart(messages)..];
    var j :| 0 <= j < |FILL_KEYS| && FILL_KEYS[j] == v;
    assert Fits(FILL_ROLES, rest, j);
  }

  lemma FillVars()
    ensures (set v | v in ContractVarsFor(FillTable).required) == (set v | v in FILL_KEYS) + {"system_prompt"}
    ensures ContractVarsFor(FillTable).optional == ["user_0"] && IMAGE_LIST !in ContractVarsFor(FillTable).required
  {
    var required := ContractVarsFor(FillTable).required;
    forall v | v in FILL_KEYS
      ensures v in required
    {
      var j :| 0 <= j < |FILL_KEYS| && FILL_KEYS[j] == v;
      assert required[j + 1] == v;
    }
    forall v | v in required
      ensures v in FILL_KEYS || v == "system_prompt"
    {
      var j :| 0 <= j < |required| && required[j] == v;
      assert j > 0 ==> FILL_KEYS[j - 1] == v;
    }
  }

  /** The translators and the contract table never drift apart. */
  lemma TranslationMeetsContract(service: Service, messages: seq<Message>, sent: Sent)
    requires Sending(service, messages, sent)
    ensures MeetsContract(service, sent)
  {
    match service
    case FillTable => FillTableMeetsContract(messages, sent);
    case WebsiteSummary =>
    case Trimmed => assert ContractVarsFor(Trimmed).optional == SLOT_NAMES;
    case _ =>
  }
}
