/** Matching chat messages to the slots of an App template. */
module Slots {
  // Every message takes the next slot of its role in template order.

  import opened Options
  import opened Text

  datatype Message = Message(role: string, content: string, images: seq<string>)

  const SLOT_NAMES: seq<string> := [
    "system_prompt", "user_0",
    "assistant_1", "user_1", "assistant_2", "user_2", "assistant_3", "user_3", "assistant_4", "user_4",
    "assistant_5", "user_5", "assistant_6", "user_6", "assistant_7", "user_7", "assistant_8", "user_8",
    "assistant_9", "user_9", "assistant_10", "user_10"]

  const PAIRS: nat := 200

  function SlotRole(name: string): string {
    if name == "system_prompt" then "system"
    else if HasPrefix(name, "user_") then "user"
    else "assistant"
  }

  /** The name of the slot at position `k` of the large template. */
  function SlotName(k: nat): string {
    if k == 0 then "system_prompt"
    else if k == 2 * PAIRS + 2 then "assistant_prefill"
    else if k % 2 == 0 then "assistant_" + Decimal(k / 2)
    else "user_" + Decimal(k / 2)
  }

  function SlotNames200(): seq<string> {
    seq(2 * PAIRS + 3, (k: nat) => SlotName(k))
  }

  method GenerateSlotNames200() returns (slots: seq<string>)
    ensures slots == SlotNames200()
  {
    slots := ["system_prompt", "user_0"];
    assert SlotName(1) == "user_" + Decimal(0) == "user_0";
    var i := 1;
    while i <= PAIRS
      invariant 1 <= i <= PAIRS + 1
      invariant slots == seq(2 * i, (k: nat) => SlotName(k))
    {
      slots := slots + ["assistant_" + Decimal(i)];
      slots := slots + ["user_" + Decimal(i)];
      i := i + 1;
    }
    slots := slots + ["assistant_prefill"];
  }

  // ---- the template's names ----

  predicate Distinct(names: seq<string>) {
    forall i, j :: 0 <= i < j < |names| ==> names[i] != names[j]
  }

  function RoleAt(k: nat): string {
    if k == 0 then "system" else if k % 2 == 1 then "user" else "assistant"
  }

  lemma SuffixOf<T>(p: seq<T>, a: seq<T>, b: seq<T>)
    ensures p + a == p + b <==> a == b
  {
    assert (p + a)[|p|..] == a && (p + b)[|p|..] == b;
  }

  lemma FirstLetters(k: nat)
    ensures SlotName(k) != [] && SlotName(k)[0] == (if k == 0 then 's' else if k % 2 == 1 then 'u' else 'a')
    ensures SlotRole(SlotName(k)) == RoleAt(k)
  {
    if k != 0 && k % 2 == 1 {
      assert ("user_" + Decimal(k / 2))[..5] == "user_";
    }
  }

  lemma NumbersDiffer(a: nat, b: nat)
    ensures Decimal(a) == Decimal(b) <==> a == b
    ensures Decimal(a) != "prefill"
  {
    ValueOfDecimal(a);
    ValueOfDecimal(b);
    assert IsDigit(Decimal(a)[0]) && !IsDigit("prefill"[0]);
  }

  lemma SlotNamesDiffer(i: nat, j: nat)
    requires i < j
    ensures SlotName(i) != SlotName(j)
  {
    FirstLetters(i);
    FirstLetters(j);
    if i > 0 && i % 2 == j % 2 {
      SameRoleDiffers(i, j);
    }
  }

  lemma SameRoleDiffers(i: nat, j: nat)
    requires 0 < i < j && i % 2 == j % 2
    ensures SlotName(i) != SlotName(j)
  {
    NumbersDiffer(i / 2, j / 2);
    NumbersDiffer(j / 2, i / 2);
    var p := if i % 2 == 1 then "user_" else "assistant_";
    SuffixOf(p, Decimal(i / 2), Decimal(j / 2));
    SuffixOf(p, Decimal(i / 2), "prefill");
    SuffixOf(p, "prefill", Decimal(j / 2));
    assert "assistant_" + "prefill" == "assistant_prefill";
  }

  lemma NameAt(k: nat)
    requires 1 <= k < 402
    ensures SlotName(k) == RoleAt(k) + ("_" + Decimal(k / 2))
  {
    Joined(RoleAt(k), Decimal(k / 2));
    assert "user" + "_" == "user_" && "assistant" + "_" == "assistant_";
  }

  lemma Joined(a: string, b: string)
    ensures a + ("_" + b) == (a + "_") + b
  {}

  lemma TemplateNames()
    ensures |SlotNames200()| == 403 && Distinct(SlotNames200())
    ensures forall k :: 0 <= k < |SlotNames200()| ==> SlotRole(SlotNames200()[k]) == RoleAt(k)
    ensures SlotNames200()[0] == "system_prompt" && SlotNames200()[402] == "assistant_prefill"
    ensures forall k :: 1 <= k < 402 ==> SlotNames200()[k] == RoleAt(k) + ("_" + Decimal(k / 2))
  {
    forall k | 1 <= k < 402
      ensures SlotNames200()[k] == RoleAt(k) + ("_" + Decimal(k / 2))
    {
      NameAt(k);
    }
    forall i, j | 0 <= i < j < |SlotNames200()|
      ensures SlotNames200()[i] != SlotNames200()[j]
    {
      SlotNamesDiffer(i, j);
    }
    forall k | 0 <= k < |SlotNames200()|
      ensures SlotRole(SlotNames200()[k]) == RoleAt(k)
    {
      FirstLetters(k);
    }
  }

  lemma NamesTo3()
    ensures SlotName(1) == "user_0"
    ensures SlotName(2) == "assistant_1"
    ensures SlotName(3) == "user_1"
    ensures SlotName(4) == "assistant_2"
    ensures SlotName(5) == "user_2"
    ensures SlotName(6) == "assistant_3"
    ensures SlotName(7) == "user_3"
  {
    assert Decimal(0) == "0" && Decimal(1) == "1" && Decimal(2) == "2" && Decimal(3) == "3";
    assert "user_" + "0" == "user_0";
    assert "assistant_" + "1" == "assistant_1";
    assert "user_" + "1" == "user_1";
    assert "assistant_" + "2" == "assistant_2";
    assert "user_" + "2" == "user_2";
    assert "assistant_" + "3" == "assistant_3";
    assert "user_" + "3" == "user_3";
  }

  lemma NamesTo6()
    ensures SlotName(8) == "assistant_4"
    ensures SlotName(9) == "user_4"
    ensures SlotName(10) == "assistant_5"
    ensures SlotName(11) == "user_5"
    ensures SlotName(12) == "assistant_6"
    ensures SlotName(13) == "user_6"
  {
    assert Decimal(4) == "4" && Decimal(5) == "5" && Decimal(6) == "6";
    assert "assistant_" + "4" == "assistant_4";
    assert "user_" + "4" == "user_4";
    assert "assistant_" + "5" == "assistant_5";
    assert "user_" + "5" == "user_5";
    assert "assistant_" + "6" == "assistant_6";
    assert "user_" + "6" == "user_6";
  }

  lemma NamesTo9()
    ensures SlotName(14) == "assistant_7"
    ensures SlotName(15) == "user_7"
    ensures SlotName(16) == "assistant_8"
    ensures SlotName(17) == "user_8"
    ensures SlotName(18) == "assistant_9"
    ensures SlotName(19) == "user_9"
  {
    assert Decimal(7) == "7" && Decimal(8) == "8" && Decimal(9) == "9";
    assert "assistant_" + "7" == "assistant_7";
    assert "user_" + "7" == "user_7";
    assert "assistant_" + "8" == "assistant_8";
    assert "user_" + "8" == "user_8";
    assert "assistant_" + "9" == "assistant_9";
    assert "user_" + "9" == "user_9";
  }

  lemma NamesOf10()
    ensures SlotName(20) == "assistant_10"
    ensures SlotName(21) == "user_10"
  {
    assert Decimal(1) == "1";
    assert Decimal(10) == Decimal(1) + "0" == "10";
    assert "assistant_" + "10" == "assistant_10";
    assert "user_" + "10" == "user_10";
  }

  lemma SmallTemplateIsRendered()
    ensures |SLOT_NAMES| == 22
    ensures SLOT_NAMES == seq(22, (k: nat) => SlotName(k))
  {
    NamesTo3();
    NamesTo6();
    NamesTo9();
    NamesOf10();
  }

  lemma DistinctPrefix(names: seq<string>, n: nat)
    requires Distinct(names) && n <= |names|
    ensures Distinct(names[..n])
  {}

  lemma PrefixOfTemplate(small: seq<string>, n: nat)
    requires n <= 2 * PAIRS + 3 && small == seq(n, (k: nat) => SlotName(k))
    ensures small == SlotNames200()[..n]
  {}

  /** The small template is the beginning of the large one. */
  lemma SmallTemplateIsPrefix()
    ensures SLOT_NAMES == SlotNames200()[..|SLOT_NAMES|]
    ensures Distinct(SLOT_NAMES)
  {
    SmallTemplateIsRendered();
    PrefixOfTemplate(SLOT_NAMES, 22);
    TemplateNames();
    DistinctPrefix(SlotNames200(), 22);
  }

  function Roles(names: seq<string>): seq<string> {
    seq(|names|, k requires 0 <= k < |names| => SlotRole(names[k]))
  }

  function Wanted(messages: seq<Message>): seq<string> {
    seq(|messages|, k requires 0 <= k < |messages| => messages[k].role)
  }

  // ---- assignments of messages to slots ----

  /** Slot `p[i]` is given to message `i`: roles agree and the order is kept. */
  ghost predicate Assigns(want: seq<string>, have: seq<string>, from: nat, p: seq<nat>) {
    && |p| == |want|
    && (forall i :: 0 <= i < |p| ==> from <= p[i] < |have| && have[p[i]] == want[i])
    && (forall i, j :: 0 <= i < j < |p| ==> p[i] < p[j])
  }

  function NextSlot(have: seq<string>, from: nat, role: string): (k: nat)
    requires from <= |have|
    ensures from <= k <= |have|
    ensures k < |have| ==> have[k] == role
    ensures forall j :: from <= j < k ==> have[j] != role
    decreases |have| - from
  {
    if from == |have| || have[from] == role then from else NextSlot(have, from + 1, role)
  }

  function Greedy(want: seq<string>, have: seq<string>, from: nat): Option<seq<nat>>
    requires from <= |have|
  {
    if want == [] then Some([])
    else
      var k := NextSlot(have, from, want[0]);
      if k == |have| then None else Prepend([k], Greedy(want[1..], have, k + 1))
  }

  function Prepend(p: seq<nat>, rest: Option<seq<nat>>): Option<seq<nat>> {
    if rest.None? then None else Some(p + rest.value)
  }

  lemma {:induction false} GreedyIsSound(want: seq<string>, have: seq<string>, from: nat)
    requires from <= |have|
    ensures Greedy(want, have, from).Some? ==> Assigns(want, have, from, Greedy(want, have, from).value)
  {
    if want != [] && Greedy(want, have, from).Some? {
      GreedyIsSound(want[1..], have, NextSlot(have, from, want[0]) + 1);
    }
  }

  /** If any assignment exists the greedy one does, and none of its slots comes later. */
  lemma {:induction false} GreedyIsMinimal(want: seq<string>, have: seq<string>, from: nat, q: seq<nat>)
    requires from <= |have| && Assigns(want, have, from, q)
    ensures Greedy(want, have, from).Some?
    ensures |Greedy(want, have, from).value| == |q|
    ensures forall i :: 0 <= i < |q| ==> Greedy(want, have, from).value[i] <= q[i]
  {
    if want != [] {
      var k := NextSlot(have, from, want[0]);
      assert k <= q[0];
      GreedyIsMinimal(want[1..], have, k + 1, q[1..]);
    }
  }

  lemma {:induction false} AssignmentFits(want: seq<string>, have: seq<string>, from: nat, q: seq<nat>)
    requires from <= |have| && Assigns(want, have, from, q)
    ensures |want| <= |have| - from
  {
    if want != [] {
      AssignmentFits(want[1..], have, q[0] + 1, q[1..]);
    }
  }

  function NextAfter(p: seq<nat>, from: nat): nat {
    if p == [] then from else p[|p| - 1] + 1
  }

  lemma NextAfterCons(k: nat, p: seq<nat>, from: nat)
    ensures NextAfter([k] + p, from) == NextAfter(p, k + 1)
  {}

  lemma PrependTwice(k: nat, p: seq<nat>, rest: Option<seq<nat>>)
    ensures Prepend([k], Prepend(p, rest)) == Prepend([k] + p, rest)
    ensures Prepend([], rest) == rest
  {
    if rest.Some? {
      assert [k] + (p + rest.value) == [k] + p + rest.value;
      assert [] + rest.value == rest.value;
    }
  }

  /** Matching splits after any prefix of the messages. */
  lemma {:induction false} GreedySplits(a: seq<string>, b: seq<string>, have: seq<string>, from: nat)
    requires from <= |have|
    ensures
      var p := Greedy(a, have, from);
      if p.None? then Greedy(a + b, have, from).None?
      else (NextAfter(p.value, from) <= |have|
            && Greedy(a + b, have, from) == Prepend(p.value, Greedy(b, have, NextAfter(p.value, from))))
  {
    if a == [] {
      assert a + b == b;
      PrependTwice(0, [], Greedy(b, have, from));
    } else {
      assert (a + b)[1..] == a[1..] + b;
      var k := NextSlot(have, from, a[0]);
      assert (a + b)[0] == a[0];
      if k < |have| {
        GreedySplits(a[1..], b, have, k + 1);
        var p := Greedy(a[1..], have, k + 1);
        if p.Some? {
          NextAfterCons(k, p.value, from);
          PrependTwice(k, p.value, Greedy(b, have, NextAfter(p.value, k + 1)));
        }
      }
    }
  }

  // ---- the translation ----

  datatype Refusal = NoMessages | TooMany(count: nat) | NoSlotLeft(index: nat)

  /** What is sent: every slot of the template, with message `i` in slot `p[i]` and the others empty. */
  ghost predicate Sends(inputs: map<string, string>, names: seq<string>, messages: seq<Message>, p: seq<nat>) {
    && |p| == |messages|
    && inputs.Keys == (set name | name in names)
    && (forall i :: 0 <= i < |p| ==> p[i] < |names| && inputs[names[p[i]]] == Trim(messages[i].content))
    && (forall k :: 0 <= k < |names| && k !in p ==> inputs[names[k]] == "")
  }

  /** The outcome of a translation over a template with the given names. */
  ghost predicate Outcome(names: seq<string>, messages: seq<Message>, r: Result<map<string, string>, Refusal>) {
    match r
    case Ok(inputs) =>
      var p := Greedy(Wanted(messages), Roles(names), 0);
      messages != [] && p.Some? && Sends(inputs, names, messages, p.value)
    case Err(NoMessages) => messages == []
    case Err(TooMany(n)) => n == |messages| > |names|
    case Err(NoSlotLeft(i)) =>
      && i < |messages| <= |names|
      && Greedy(Wanted(messages[..i]), Roles(names), 0).Some?
      && Greedy(Wanted(messages[..i + 1]), Roles(names), 0).None?
  }

  lemma GreedyOne(role: string, have: seq<string>, from: nat)
    requires from <= |have|
    ensures
      var k := NextSlot(have, from, role);
      Greedy([role], have, from) == if k == |have| then None else Some([k])
  {
    var k := NextSlot(have, from, role);
    var want := [role];
    assert want[0] == role && want[1..] == [];
    if k < |have| {
      assert Greedy(want, have, from) == Prepend([k], Greedy(want[1..], have, k + 1));
      assert Greedy(want[1..], have, k + 1) == Some([]);
      assert [k] + [] == [k];
    }
  }

  lemma WantedOneMore(messages: seq<Message>, mi: nat)
    requires mi < |messages|
    ensures Wanted(messages[..mi + 1]) == Wanted(messages[..mi]) + [messages[mi].role]
    ensures messages[..mi + 1] == messages[..mi] + [messages[mi]]
  {}

  lemma MatchOneMore(messages: seq<Message>, mi: nat, have: seq<string>, p: seq<nat>)
    requires mi < |messages| && Greedy(Wanted(messages[..mi]), have, 0) == Some(p)
    ensures NextAfter(p, 0) <= |have|
    ensures
      var k := NextSlot(have, NextAfter(p, 0), messages[mi].role);
      Greedy(Wanted(messages[..mi + 1]), have, 0) == if k == |have| then None else Some(p + [k])
  {
    GreedySplits(Wanted(messages[..mi]), [messages[mi].role], have, 0);
    GreedyOne(messages[mi].role, have, NextAfter(p, 0));
    WantedOneMore(messages, mi);
  }

  lemma SystemFirst(messages: seq<Message>, have: seq<string>)
    requires messages != [] && messages[0].role == "system" && have != [] && have[0] == "system"
    ensures Greedy(Wanted(messages[..1]), have, 0) == Some([0])
  {
    assert Wanted(messages[..1]) == ["system"];
    GreedyOne("system", have, 0);
  }

  lemma SlotsComeInOrder(messages: seq<Message>, have: seq<string>, p: seq<nat>)
    requires Greedy(Wanted(messages), have, 0) == Some(p)
    ensures |p| == |messages|
    ensures forall k <- p :: k < NextAfter(p, 0) <= |have|
  {
    GreedyIsSound(Wanted(messages), have, 0);
    forall k <- p
      ensures k < NextAfter(p, 0)
    {
      var i :| 0 <= i < |p| && p[i] == k;
      assert i < |p| - 1 ==> p[i] < p[|p| - 1];
    }
  }

  /** The first `mi` messages are where the greedy matching puts them. */
  ghost predicate Placed(names: seq<string>, messages: seq<Message>, mi: nat, inputs: map<string, string>, p: seq<nat>) {
    && mi <= |messages|
    && Greedy(Wanted(messages[..mi]), Roles(names), 0) == Some(p)
    && Sends(inputs, names, messages[..mi], p)
  }

  lemma PlacedSystem(names: seq<string>, messages: seq<Message>, inputs: map<string, string>)
    requires Distinct(names) && names != [] && names[0] == "system_prompt"
    requires Placed(names, messages, 0, inputs, []) && messages != [] && messages[0].role == "system"
    ensures Placed(names, messages, 1, inputs["system_prompt" := Trim(messages[0].content)], [0])
  {
    SystemFirst(messages, Roles(names));
    SendOneMore(inputs, names, messages, 0, [], 0);
    assert [] + [0] == [0];
  }

  lemma PlacedOneMore(names: seq<string>, messages: seq<Message>, mi: nat, inputs: map<string, string>, p: seq<nat>, k: nat)
    requires Distinct(names) && Placed(names, messages, mi, inputs, p) && mi < |messages| <= |names|
    requires NextAfter(p, 0) <= |names| && k == NextSlot(Roles(names), NextAfter(p, 0), messages[mi].role)
    ensures k == |names| ==> Outcome(names, messages, Err(NoSlotLeft(mi)))
    ensures k < |names| ==> Placed(names, messages, mi + 1, inputs[names[k] := Trim(messages[mi].content)], p + [k])
  {
    MatchOneMore(messages, mi, Roles(names), p);
    if k < |names| {
      SlotsComeInOrder(messages[..mi], Roles(names), p);
      SendOneMore(inputs, names, messages, mi, p, k);
    }
  }

  lemma PlacedAll(names: seq<string>, messages: seq<Message>, inputs: map<string, string>, p: seq<nat>)
    requires Placed(names, messages, |messages|, inputs, p) && messages != []
    ensures Outcome(names, messages, Ok(inputs))
  {
    assert messages[..|messages|] == messages;
  }

  /** The next slot whose role matches. */
  method Advance(names: seq<string>, from: nat, role: string) returns (slotIdx: nat)
    requires from <= |names|
    ensures slotIdx == NextSlot(Roles(names), from, role)
  {
    slotIdx := from;
    while slotIdx < |names| && SlotRole(names[slotIdx]) != role
      invariant from <= slotIdx <= |names|
      invariant NextSlot(Roles(names), from, role) == NextSlot(Roles(names), slotIdx, role)
    {
      slotIdx := slotIdx + 1;
    }
  }

  /** Both templates: a leading system message first, then the next slot of each role. */
  method TranslateOver(names: seq<string>, messages: seq<Message>) returns (r: Result<map<string, string>, Refusal>)
    requires Distinct(names) && names != [] && names[0] == "system_prompt"
    ensures Outcome(names, messages, r)
  {
    if |messages| < 1 {
      return Err(NoMessages);
    }
    if |messages| > |names| {
      return Err(TooMany(|messages|));
    }
    var inputs: map<string, string> := map name | name in names :: "";
    if messages[0].role == "system" {
      PlacedSystem(names, messages, inputs);
      inputs := inputs["system_prompt" := Trim(messages[0].content)];
      r := MatchFrom(names, messages, 1, 1, inputs, [0]);
    } else {
      r := MatchFrom(names, messages, 0, 0, inputs, []);
    }
  }

  method MatchFrom(
      names: seq<string>, messages: seq<Message>, slot: nat, message: nat, sent: map<string, string>, ghost given: seq<nat>)
      returns (r: Result<map<string, string>, Refusal>)
    requires Distinct(names) && 0 < |messages| <= |names|
    requires Placed(names, messages, message, sent, given) && slot == NextAfter(given, 0)
    ensures Outcome(names, messages, r)
  {
    var inputs, slotIdx, mi := sent, slot, message;
    ghost var p: seq<nat> := given;
    while mi < |messages|
      invariant Placed(names, messages, mi, inputs, p)
      invariant slotIdx == NextAfter(p, 0)
    {
      var m := messages[mi];
      slotIdx := Advance(names, slotIdx, m.role);
      PlacedOneMore(names, messages, mi, inputs, p, slotIdx);
      if slotIdx >= |names| {
        return Err(NoSlotLeft(mi));
      }
      inputs := inputs[names[slotIdx] := Trim(m.content)];
      p := p + [slotIdx];
      slotIdx := slotIdx + 1;
      mi := mi + 1;
    }
    PlacedAll(names, messages, inputs, p);
    return Ok(inputs);
  }

  lemma SendOneMore(inputs: map<string, string>, names: seq<string>, messages: seq<Message>, mi: nat, p: seq<nat>, k: nat)
    requires mi < |messages| && Distinct(names) && Sends(inputs, names, messages[..mi], p)
    requires k < |names| && k !in p
    ensures Sends(inputs[names[k] := Trim(messages[mi].content)], names, messages[..mi + 1], p + [k])
  {
    var after := inputs[names[k] := Trim(messages[mi].content)];
    forall i | 0 <= i < mi
      ensures after[names[p[i]]] == Trim(messages[i].content)
    {
      assert p[i] in p;
      assert messages[..mi][i] == messages[i];
      assert names[p[i]] != names[k];
    }
    forall j | 0 <= j < |names| && j !in p + [k]
      ensures after[names[j]] == ""
    {
      assert j !in p && j != k;
      assert names[j] != names[k];
    }
  }

  method TranslateToSlots(messages: seq<Message>) returns (r: Result<map<string, string>, Refusal>)
    ensures Outcome(SLOT_NAMES, messages, r)
  {
    SmallTemplateIsPrefix();
    r := TranslateOver(SLOT_NAMES, messages);
  }

  method TranslateToSlots200(messages: seq<Message>) returns (r: Result<map<string, string>, Refusal>)
    ensures Outcome(SlotNames200(), messages, r)
  {
    TemplateNames();
    var names := GenerateSlotNames200();
    r := TranslateOver(names, messages);
  }

  // ---- what a translation achieves ----

  /** Some order-keeping assignment of all messages to slots of their roles exists. */
  ghost predicate Assignable(names: seq<string>, messages: seq<Message>) {
    exists p :: Assigns(Wanted(messages), Roles(names), 0, p)
  }

  lemma GreedyIffAssignable(names: seq<string>, messages: seq<Message>)
    ensures Greedy(Wanted(messages), Roles(names), 0).Some? <==> Assignable(names, messages)
    ensures Assignable(names, messages) ==> |messages| <= |names|
  {
    var want, have := Wanted(messages), Roles(names);
    if Greedy(want, have, 0).Some? {
      GreedyIsSound(want, have, 0);
    }
    if Assignable(names, messages) {
      var q :| Assigns(want, have, 0, q);
      GreedyIsMinimal(want, have, 0, q);
      AssignmentFits(want, have, 0, q);
    }
  }

  lemma HopelessPrefix(names: seq<string>, messages: seq<Message>, n: nat)
    requires n <= |messages| && Greedy(Wanted(messages[..n]), Roles(names), 0).None?
    ensures Greedy(Wanted(messages), Roles(names), 0).None?
  {
    GreedySplits(Wanted(messages[..n]), Wanted(messages[n..]), Roles(names), 0);
    assert Wanted(messages[..n]) + Wanted(messages[n..]) == Wanted(messages);
  }

  /** Success is exactly assignability; every error, the length check included, is a hopeless input. */
  lemma SucceedsIffAssignable(names: seq<string>, messages: seq<Message>, r: Result<map<string, string>, Refusal>)
    requires Outcome(names, messages, r)
    ensures r.Ok? <==> messages != [] && Assignable(names, messages)
  {
    GreedyIffAssignable(names, messages);
    if r.Err? && r.error.NoSlotLeft? {
      HopelessPrefix(names, messages, r.error.index + 1);
    }
  }

  /** A refused message is the first that cannot be placed. */
  lemma RefusesTheFirstHopeless(names: seq<string>, messages: seq<Message>, i: nat)
    requires Outcome(names, messages, Err(NoSlotLeft(i)))
    ensures i < |messages| && Assignable(names, messages[..i]) && !Assignable(names, messages[..i + 1])
  {
    GreedyIffAssignable(names, messages[..i]);
    GreedyIffAssignable(names, messages[..i + 1]);
  }

  /** The slots used are the earliest possible, message by message. */
  lemma UsesEarliestSlots(names: seq<string>, messages: seq<Message>, r: Result<map<string, string>, Refusal>, q: seq<nat>)
    requires Outcome(names, messages, r) && messages != [] && Assigns(Wanted(messages), Roles(names), 0, q)
    ensures
      exists p ::
        && Assigns(Wanted(messages), Roles(names), 0, p) && r.Ok? && Sends(r.value, names, messages, p)
        && forall i :: 0 <= i < |q| ==> p[i] <= q[i]
  {
    SucceedsIffAssignable(names, messages, r);
    GreedyIsSound(Wanted(messages), Roles(names), 0);
    GreedyIsMinimal(Wanted(messages), Roles(names), 0, q);
  }

  // ---- reading the slots back ----

  /** The non-empty slots in template order. */
  function NonEmpty(inputs: map<string, string>, names: seq<string>): seq<string>
    requires forall name <- names :: name in inputs
  {
    if names == [] then []
    else (if inputs[names[0]] != "" then [inputs[names[0]]] else []) + NonEmpty(inputs, names[1..])
  }

  /** The trimmed messages that are not blank. */
  function Spoken(messages: seq<Message>): seq<string> {
    if messages == [] then []
    else (if Trim(messages[0].content) != "" then [Trim(messages[0].content)] else []) + Spoken(messages[1..])
  }

  lemma {:induction false} ReadsBackFrom(
      inputs: map<string, string>, names: seq<string>, from: nat, messages: seq<Message>, p: seq<nat>)
    requires forall name <- names :: name in inputs
    requires |p| == |messages| && from <= |names|
    requires forall i :: 0 <= i < |p| ==> from <= p[i] < |names| && inputs[names[p[i]]] == Trim(messages[i].content)
    requires forall i, j :: 0 <= i < j < |p| ==> p[i] < p[j]
    requires forall k :: from <= k < |names| && k !in p ==> inputs[names[k]] == ""
    ensures NonEmpty(inputs, names[from..]) == Spoken(messages)
    decreases |names| - from
  {
    if from < |names| {
      assert names[from..][1..] == names[from + 1..];
      if p != [] && p[0] == from {
        forall k | from + 1 <= k < |names| && k !in p[1..]
          ensures inputs[names[k]] == ""
        {
          assert p == [p[0]] + p[1..];
          assert k !in p;
        }
        ReadsBackFrom(inputs, names, from + 1, messages[1..], p[1..]);
      } else {
        if p != [] { assert forall i :: 0 < i < |p| ==> p[0] < p[i]; }
        assert from !in p;
        ReadsBackFrom(inputs, names, from + 1, messages, p);
      }
    }
  }

  /** Reading the non-empty slots in template order gives the trimmed non-blank messages in order. */
  lemma ReadsBack(names: seq<string>, messages: seq<Message>, inputs: map<string, string>)
    requires Outcome(names, messages, Ok(inputs))
    ensures NonEmpty(inputs, names) == Spoken(messages)
  {
    GreedyIsSound(Wanted(messages), Roles(names), 0);
    ReadsBackFrom(inputs, names, 0, messages, Greedy(Wanted(messages), Roles(names), 0).value);
    assert names[0..] == names;
  }

  // ---- the small template within the large one ----

  lemma {:induction false} NextSlotInPrefix(have: seq<string>, n: nat, from: nat, role: string)
    requires from <= n <= |have|
    ensures
      var k := NextSlot(have, from, role);
      NextSlot(have[..n], from, role) == if k < n then k else n
    decreases n - from
  {
    if from < n && have[from] != role {
      NextSlotInPrefix(have, n, from + 1, role);
    }
  }

  predicate Below(p: seq<nat>, n: nat) {
    forall k <- p :: k < n
  }

  lemma BelowPrepends(k: nat, rest: seq<nat>, n: nat)
    ensures Below([k] + rest, n) <==> k < n && Below(rest, n)
  {
    assert k in [k] + rest;
    assert forall j <- rest :: j in [k] + rest;
  }

  function Within(p: Option<seq<nat>>, n: nat): Option<seq<nat>> {
    if p.Some? && Below(p.value, n) then p else None
  }

  lemma WithinPrepends(k: nat, rest: Option<seq<nat>>, n: nat)
    ensures Within(Prepend([k], rest), n) == if k < n then Prepend([k], Within(rest, n)) else None
  {
    if rest.Some? { BelowPrepends(k, rest.value, n); }
  }

  /** Over the first `n` slots only, matching succeeds exactly when it needs no later slot. */
  lemma {:induction false} GreedyInPrefix(want: seq<string>, have: seq<string>, n: nat, from: nat)
    requires from <= n <= |have|
    ensures Greedy(want, have[..n], from) == Within(Greedy(want, have, from), n)
  {
    if want != [] {
      NextSlotInPrefix(have, n, from, want[0]);
      var k := NextSlot(have, from, want[0]);
      if k < n {
        GreedyInPrefix(want[1..], have, n, k + 1);
      }
      if k < |have| {
        WithinPrepends(k, Greedy(want[1..], have, k + 1), n);
      }
    }
  }

  /**
   The 22-slot translation is the large one restricted to its slots: it succeeds exactly when
   the large one does without using a later slot, and then sends the same values.
   */
  lemma SmallIsRestriction(messages: seq<Message>, small: Result<map<string, string>, Refusal>, large: Result<map<string, string>, Refusal>)
    requires Outcome(SLOT_NAMES, messages, small) && Outcome(SlotNames200(), messages, large)
    ensures small.Ok? ==> large.Ok? && small.value == map name | name in large.value && name in SLOT_NAMES :: large.value[name]
    ensures large.Ok? ==> (small.Ok? <==> Below(Greedy(Wanted(messages), Roles(SlotNames200()), 0).value, |SLOT_NAMES|))
  {
    var names, n, want := SlotNames200(), |SLOT_NAMES|, Wanted(messages);
    SmallTemplateIsPrefix();
    assert Roles(SLOT_NAMES) == Roles(names)[..n];
    GreedyInPrefix(want, Roles(names), n, 0);
    SucceedsIffAssignable(SLOT_NAMES, messages, small);
    SucceedsIffAssignable(names, messages, large);
    SuccessIsGreedy(SLOT_NAMES, messages, small);
    SuccessIsGreedy(names, messages, large);
    if small.Ok? {
      SameValues(messages, small.value, large.value, Greedy(want, Roles(names), 0).value);
    }
  }

  lemma SuccessIsGreedy(names: seq<string>, messages: seq<Message>, r: Result<map<string, string>, Refusal>)
    requires Outcome(names, messages, r)
    ensures r.Ok? <==> messages != [] && Greedy(Wanted(messages), Roles(names), 0).Some?
  {
    SucceedsIffAssignable(names, messages, r);
    GreedyIffAssignable(names, messages);
  }

  lemma SameValues(messages: seq<Message>, small: map<string, string>, large: map<string, string>, p: seq<nat>)
    requires SLOT_NAMES == SlotNames200()[..|SLOT_NAMES|]
    requires Sends(small, SLOT_NAMES, messages, p) && Sends(large, SlotNames200(), messages, p)
    ensures small == map name | name in large && name in SLOT_NAMES :: large[name]
  {
    forall name | name in SLOT_NAMES
      ensures name in small && name in large && small[name] == large[name]
    {
      var k :| 0 <= k < |SLOT_NAMES| && SLOT_NAMES[k] == name;
      assert SlotNames200()[k] == name && name in SlotNames200();
      if k in p {
        var i :| 0 <= i < |p| && p[i] == k;
      }
    }
  }
}
