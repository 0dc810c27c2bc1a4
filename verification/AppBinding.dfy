/**
 Binding an App to a service, through the renaming of a downloaded template when there is one.

 The check compares the variables an App asks for with the contract of its service. A downloaded
 template has its variables renamed and dummies added; the check maps them back, and a request maps
 its inputs forward.
 */
module AppBinding {
  import opened Options
  import opened Contracts
  import Slots

  /** An App's variables, and whether the App requires each. */
  type Params = map<string, bool>

  /** From a contract variable to the name it has in the downloaded template. */
  type Mapping = map<string, string>

  datatype Check = Check(compatible: bool, missing: seq<string>, uncovered: seq<string>, extra: seq<string>)

  function Absent(vars: seq<string>, params: Params): seq<string> {
    if vars == [] then []
    else Absent(vars[..|vars| - 1], params) + if vars[|vars| - 1] in params then [] else [vars[|vars| - 1]]
  }

  /** The verdict on an App; the App's own variables come in no particular order. */
  ghost predicate IsVerdict(service: Service, params: Params, check: Check) {
    && check.missing == Absent(ContractVarsFor(service).required, params)
    && Slots.Distinct(check.uncovered) && Slots.Distinct(check.extra)
    && (forall v :: v in check.uncovered <==> v in params && params[v] && v !in Covered(service))
    && (forall v :: v in check.extra <==> v in params && !params[v] && v !in Covered(service))
    && check.compatible == (check.missing == [] && check.uncovered == [])
  }

  ghost predicate Lists(names: seq<string>, params: Params, covered: set<string>, unseen: set<string>, required: bool) {
    Slots.Distinct(names) && forall v :: v in names <==> v in params && v !in unseen && params[v] == required && v !in covered
  }

  method MissingVars(required: seq<string>, params: Params) returns (missing: seq<string>)
    ensures missing == Absent(required, params)
  {
    missing := [];
    for i := 0 to |required|
      invariant missing == Absent(required[..i], params)
    {
      assert required[..i + 1][..i] == required[..i];
      if required[i] !in params {
        missing := missing + [required[i]];
      }
    }
    assert required[..|required|] == required;
  }

  method CheckAppParams(service: Service, params: Params) returns (check: Check)
    ensures IsVerdict(service, params, check)
  {
    var covered := Covered(service);
    var missing := MissingVars(ContractVarsFor(service).required, params);
    var compatible := missing == [];
    var uncovered: seq<string>, extra: seq<string> := [], [];
    var unseen := params.Keys;
    while unseen != {}
      invariant unseen <= params.Keys
      invariant Lists(uncovered, params, covered, unseen, true) && Lists(extra, params, covered, unseen, false)
      invariant compatible == (missing == [] && uncovered == [])
      decreases unseen
    {
      var name :| name in unseen;
      unseen := unseen - {name};
      if name !in covered {
        if params[name] {
          uncovered := uncovered + [name];
          compatible := false;
        } else {
          extra := extra + [name];
        }
      }
    }
    check := Check(compatible, missing, uncovered, extra);
  }

  lemma {:induction false} AbsentIsNone(vars: seq<string>, params: Params)
    ensures Absent(vars, params) == [] <==> forall v <- vars :: v in params
  {
    if vars != [] {
      AbsentIsNone(vars[..|vars| - 1], params);
    }
  }

  /** Compatible: the App takes everything the contract requires, and requires nothing the contract never sends. */
  lemma CompatibleMeans(service: Service, params: Params, check: Check)
    requires IsVerdict(service, params, check)
    ensures check.compatible
       <==> && (forall v <- ContractVarsFor(service).required :: v in params)
            && (forall v <- params :: params[v] ==> v in Covered(service))
  {
    AbsentIsNone(ContractVarsFor(service).required, params);
    if check.uncovered != [] { assert check.uncovered[0] in check.uncovered; }
  }

  // ---- renamed variables ----

  predicate Injective(mapping: Mapping) {
    forall a <- mapping, b <- mapping :: mapping[a] == mapping[b] ==> a == b
  }

  /** Only the current main-dialogue service has a template to download. */
  predicate HasTemplate(service: Service) {
    service.V1?
  }

  /** A renamed variable's contract name; an unmapped variable is a dummy and has none. */
  ghost predicate IsInverse(rev: map<string, string>, mapping: Mapping) {
    && rev.Keys == mapping.Values
    && forall name <- rev :: rev[name] in mapping && mapping[rev[name]] == name
  }

  /** The App's parameters under their contract names. */
  function Canonical(mapping: Mapping, params: Params): Params {
    map c | c in mapping && mapping[c] in params :: params[mapping[c]]
  }

  /** Reads the mapping backwards. */
  method Reversed(mapping: Mapping) returns (rev: map<string, string>)
    ensures IsInverse(rev, mapping)
  {
    rev := map[];
    var unseen := mapping.Keys;
    while unseen != {}
      invariant unseen <= mapping.Keys
      invariant forall c <- mapping :: c !in unseen ==> mapping[c] in rev
      invariant forall name <- rev :: rev[name] in mapping && mapping[rev[name]] == name
      decreases unseen
    {
      var c :| c in unseen;
      rev := rev[mapping[c] := c];
      unseen := unseen - {c};
    }
  }

  lemma InverseIsUnique(rev: map<string, string>, mapping: Mapping, c: string)
    requires IsInverse(rev, mapping) && Injective(mapping) && c in mapping
    ensures mapping[c] in rev && rev[mapping[c]] == c
  {
    assert mapping[c] in mapping.Values;
  }

  /** The parameters among `unseen` are still to be renamed. */
  ghost predicate NormalisedSoFar(rev: map<string, string>, params: Params, unseen: set<string>, out: Params) {
    && (forall name <- params :: name !in unseen && name in rev ==> rev[name] in out)
    && (forall c <- out :: exists name :: name in params && name !in unseen && name in rev && rev[name] == c && out[c] == params[name])
  }

  lemma NormalisedIsCanonical(mapping: Mapping, rev: map<string, string>, params: Params, out: Params)
    requires Injective(mapping) && IsInverse(rev, mapping) && NormalisedSoFar(rev, params, {}, out)
    ensures out == Canonical(mapping, params)
  {
    forall c <- mapping | mapping[c] in params
      ensures c in out
    {
      InverseIsUnique(rev, mapping, c);
    }
    forall c <- out
      ensures c in mapping && mapping[c] in params && out[c] == params[mapping[c]]
    {
      var name :| name in params && name in rev && rev[name] == c && out[c] == params[name];
    }
  }

  method Normalise(service: Service, mapping: Mapping, params: Params) returns (out: Params)
    ensures service != V1 || mapping == map[] ==> out == params
    ensures service == V1 && mapping != map[] && Injective(mapping) ==> out == Canonical(mapping, params)
  {
    if !HasTemplate(service) || |mapping| == 0 {
      return params;
    }
    var rev := Reversed(mapping);
    out := map[];
    var unseen := params.Keys;
    while unseen != {}
      invariant unseen <= params.Keys
      invariant NormalisedSoFar(rev, params, unseen, out)
      decreases unseen
    {
      var name :| name in unseen;
      unseen := unseen - {name};
      if name in rev {
        out := out[rev[name] := params[name]];
      }
    }
    if Injective(mapping) {
      NormalisedIsCanonical(mapping, rev, params, out);
    }
  }

  /** Contract inputs under the names of the user's template, once one has been downloaded. */
  method Remap(service: Service, mapping: Mapping, inputs: Inputs) returns (out: Option<Inputs>)
    ensures out.None? <==> service == V1 && mapping == map[]
    ensures service != V1 ==> out == Some(inputs)
    ensures service == V1 && out.Some? ==> IsRenamed(mapping, inputs, out.value)
  {
    if !HasTemplate(service) {
      return Some(inputs);
    }
    if |mapping| == 0 {
      return None;
    }
    var renamed: Inputs := map[];
    var unseen := inputs.Keys;
    while unseen != {}
      invariant unseen <= inputs.Keys
      invariant forall c <- inputs :: c !in unseen && c in mapping ==> mapping[c] in renamed
      invariant forall name <- renamed :: exists c ::
          c in inputs && c !in unseen && c in mapping && mapping[c] == name && renamed[name] == inputs[c]
      decreases unseen
    {
      var c :| c in unseen;
      ghost var before := renamed;
      unseen := unseen - {c};
      if c in mapping {
        renamed := renamed[mapping[c] := inputs[c]];
      }
      forall name <- renamed
        ensures exists c ::
          c in inputs && c !in unseen && c in mapping && mapping[c] == name && renamed[name] == inputs[c]
      {
        if c in mapping && name == mapping[c] {
        } else {
          assert name in before;
        }
      }
    }
    return Some(renamed);
  }

  /** Every mapped input arrives under its new name, and nothing else is sent: dummies stay unfilled. */
  ghost predicate IsRenamed(mapping: Mapping, inputs: Inputs, out: Inputs) {
    && (forall c <- inputs :: c in mapping ==> mapping[c] in out)
    && forall name <- out :: exists c :: c in inputs && c in mapping && mapping[c] == name && out[name] == inputs[c]
  }

  // ---- what renaming preserves ----

  /** An App imported from a template: the contract's variables renamed, and dummies beside them. */
  function Obfuscated(mapping: Mapping, params: Params, dummies: Params): Params
    requires params.Keys <= mapping.Keys && Injective(mapping)
  {
    (map c | c in params :: mapping[c] := params[c]) + dummies
  }

  /** Normalising undoes the renaming and drops the dummies, so the verdict is that on the plain App. */
  lemma NormaliseUndoesObfuscation(mapping: Mapping, params: Params, dummies: Params)
    requires params.Keys <= mapping.Keys && Injective(mapping) && dummies.Keys !! mapping.Values
    ensures Canonical(mapping, Obfuscated(mapping, params, dummies)) == params
  {
    forall c <- mapping
      ensures mapping[c] in Obfuscated(mapping, params, dummies) <==> c in params
      ensures c in params ==> Obfuscated(mapping, params, dummies)[mapping[c]] == params[c]
    {
    }
  }

  /** Each input arrives under its own new name, so what a template is sent determines the inputs. */
  lemma RenamedTellsInputs(mapping: Mapping, inputs: Inputs, out: Inputs)
    requires Injective(mapping) && IsRenamed(mapping, inputs, out)
    ensures out == map c | c in inputs && c in mapping :: mapping[c] := inputs[c]
    ensures forall c <- mapping :: c in inputs <==> mapping[c] in out
    ensures forall c <- mapping :: c in inputs ==> out[mapping[c]] == inputs[c]
  {
    forall c <- inputs | c in mapping
      ensures mapping[c] in out && out[mapping[c]] == inputs[c]
    {
      var d :| d in inputs && d in mapping && mapping[d] == mapping[c] && out[mapping[c]] == inputs[d];
    }
    forall c <- mapping | mapping[c] in out
      ensures c in inputs
    {
      var d :| d in inputs && d in mapping && mapping[d] == mapping[c] && out[mapping[c]] == inputs[d];
    }
  }

  lemma SameMembers(a: seq<string>, b: seq<string>)
    requires forall v :: v in a <==> v in b
    ensures a == [] <==> b == []
    ensures (set v | v in a) == (set v | v in b)
  {
    if a != [] { assert a[0] in b; }
    if b != [] { assert b[0] in a; }
  }

  /** A verdict is determined up to the order of the App's own variables. */
  lemma VerdictIsUnique(service: Service, params: Params, a: Check, b: Check)
    requires IsVerdict(service, params, a) && IsVerdict(service, params, b)
    ensures SameUpToOrder(a, b)
  {
    SameMembers(a.uncovered, b.uncovered);
    SameMembers(a.extra, b.extra);
  }

  ghost predicate SameUpToOrder(a: Check, b: Check) {
    && a.compatible == b.compatible && a.missing == b.missing
    && (set v | v in a.uncovered) == (set v | v in b.uncovered)
    && (set v | v in a.extra) == (set v | v in b.extra)
  }

  lemma SameVerdict(service: Service, mapping: Mapping, params: Params, dummies: Params, plain: Check, renamed: Check)
    requires params.Keys <= mapping.Keys && Injective(mapping) && dummies.Keys !! mapping.Values
    requires IsVerdict(service, params, plain)
    requires IsVerdict(service, Canonical(mapping, Obfuscated(mapping, params, dummies)), renamed)
    ensures SameUpToOrder(plain, renamed)
  {
    NormaliseUndoesObfuscation(mapping, params, dummies);
    VerdictIsUnique(service, params, plain, renamed);
  }

  /** A compatible App without a template receives every variable it requires. */
  lemma CompatibleAppIsServed(service: Service, params: Params, check: Check, sent: Sent)
    requires IsVerdict(service, params, check) && check.compatible && MeetsContract(service, sent)
    ensures forall v <- params :: params[v] ==> v in SentVars(sent)
    ensures forall v <- ContractVarsFor(service).required :: v in params
  {
    CompatibleMeans(service, params, check);
  }

  /**
   A compatible App imported from the template receives every variable it requires that is not
   a dummy, each with the contract input it stands for.
   */
  lemma CompatibleTemplateAppIsServed(mapping: Mapping, params: Params, check: Check, sent: Sent, out: Inputs)
    requires Injective(mapping) && IsVerdict(V1, Canonical(mapping, params), check) && check.compatible
    requires MeetsContract(V1, sent) && sent.images == [] && IsRenamed(mapping, sent.inputs, out)
    ensures forall v <- params :: params[v] && v in mapping.Values ==> v in out
    ensures forall c <- mapping :: mapping[c] in params && params[mapping[c]] ==> c in sent.inputs && out[mapping[c]] == sent.inputs[c]
    ensures forall name <- out :: name in mapping.Values
  {
    CompatibleAppIsServed(V1, Canonical(mapping, params), check, sent);
    forall c <- mapping | mapping[c] in params && params[mapping[c]]
      ensures c in sent.inputs && mapping[c] in out && out[mapping[c]] == sent.inputs[c]
    {
      assert c in Canonical(mapping, params) && Canonical(mapping, params)[c];
    }
  }
}
