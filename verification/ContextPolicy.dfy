/** The layered context policy: operator ceilings, principal customisation, equally specific anchors. */
module ContextPolicy {
  import opened Types
  import opened ContextHierarchy

  type Kind = string

  /** One layer's policy for one kind; every field may be left unstated. */
  datatype KindPolicy = KindPolicy(
    allowed: Option<bool>,
    required: Option<bool>,
    agentCreation: Option<bool>,
    requireIdentity: Option<bool>,
    includeDescendants: Option<bool>,
    defaultContext: Option<ContextId>,
    companions: Option<seq<Kind>>,
    schemes: Option<seq<string>>,
    guidance: Option<string>)

  datatype Ambiguity = Required | RequireIdentity | IncludeDescendants | DefaultContext

  /** The merged policy. Sets stand for the sorted, duplicate-free lists of the original. */
  datatype Effective = Effective(
    kind: Kind,
    allowed: bool,
    required: bool,
    companions: Option<set<Kind>>,
    schemes: set<string>,
    agentCreation: bool,
    requireIdentity: bool,
    defaultContext: Option<ContextId>,
    includeDescendants: bool,
    guidance: seq<string>,
    ambiguities: seq<Ambiguity>)

  /** Trimming of guidance and normalisation of scheme names, as parameters. */
  datatype Text = Text(trim: string -> string, normalize: string -> string)

  const PROJECT := "project"
  const DEFAULT_SCHEMES := {"git_remote", "namespaced_id", "uri"}

  // ---- What the layers state ----

  datatype Flag = Allow | Require | Create | Identify | Descend

  function Get(p: KindPolicy, f: Flag): Option<bool> {
    match f
    case Allow => p.allowed
    case Require => p.required
    case Create => p.agentCreation
    case Identify => p.requireIdentity
    case Descend => p.includeDescendants
  }

  function Says(layer: Option<KindPolicy>, f: Flag): Option<bool> {
    if layer.Some? then Get(layer.value, f) else None
  }

  function DefaultOf(layer: Option<KindPolicy>): Option<ContextId> {
    if layer.Some? then layer.value.defaultContext else None
  }

  function Or<T>(first: Option<T>, second: Option<T>): Option<T> {
    if first.Some? then first else second
  }

  function Else<T>(first: Option<T>, fallback: T): T {
    if first.Some? then first.value else fallback
  }

  /** The values a set of anchors states for a flag. */
  function Stated(anchors: set<KindPolicy>, f: Flag): set<bool> {
    set a | a in anchors && Get(a, f).Some? :: Get(a, f).value
  }

  function Defaults(anchors: set<KindPolicy>): set<ContextId> {
    set a | a in anchors && a.defaultContext.Some? :: a.defaultContext.value
  }

  function Members<T>(s: seq<T>): set<T> {
    set x | x in s
  }

  function Normalized(text: Text, schemes: seq<string>): set<string> {
    set s | s in schemes :: text.normalize(s)
  }

  // ---- The specification, on a set of anchors ----

  /** A value replaced by the anchors when they agree, and inherited otherwise. */
  ghost predicate Unanimous<T(!new)>(values: set<T>, inherited: T, result: T) {
    && (forall v | values == {v} :: result == v)
    && ((forall v :: values != {v}) ==> result == inherited)
  }

  ghost predicate Disagree<T(!new)>(values: set<T>) {
    exists u, v | u in values && v in values :: u != v
  }

  /** Denials win over grants, grants over what is inherited. */
  function DenyWins(values: set<bool>, inherited: bool): bool {
    if false in values then false else if true in values then true else inherited
  }

  /** A capability: an operator denial is final, then anchors with denials winning, then principal, operator,
      default. */
  ghost predicate CapabilityMeets(op: Option<KindPolicy>, pr: Option<KindPolicy>, anchors: set<KindPolicy>, f: Flag,
                                  default: bool, r: bool) {
    r == (Says(op, f) != Some(false) && DenyWins(Stated(anchors, f), Else(Or(Says(pr, f), Says(op, f)), default)))
  }

  /** A requirement: an operator requirement is final, then agreeing anchors, then principal, operator, default. */
  ghost predicate RequirementMeets(op: Option<KindPolicy>, pr: Option<KindPolicy>, anchors: set<KindPolicy>, f: Flag,
                                   default: bool, r: bool) {
    if Says(op, f) == Some(true) then r
    else Unanimous(Stated(anchors, f), Else(Or(Says(pr, f), Says(op, f)), default), r)
  }

  ghost predicate FlagsMeet(kind: Kind, op: Option<KindPolicy>, pr: Option<KindPolicy>, anchors: set<KindPolicy>,
                            e: Effective) {
    && CapabilityMeets(op, pr, anchors, Allow, true, e.allowed)
    && CapabilityMeets(op, pr, anchors, Create, kind == PROJECT, e.agentCreation)
    && RequirementMeets(op, pr, anchors, Require, false, e.required)
    && RequirementMeets(op, pr, anchors, Identify, kind == PROJECT, e.requireIdentity)
    && Unanimous(Stated(anchors, Descend), Else(Or(Says(pr, Descend), Says(op, Descend)), false), e.includeDescendants)
  }

  /** The anchors' single default, or else the principal's, or else the operator's. */
  ghost predicate DefaultMeets(op: Option<KindPolicy>, pr: Option<KindPolicy>, anchors: set<KindPolicy>, e: Effective) {
    && (forall c | Defaults(anchors) == {c} :: e.defaultContext == Some(c))
    && ((forall c :: Defaults(anchors) != {c}) ==> e.defaultContext == Or(DefaultOf(pr), DefaultOf(op)))
  }

  /** The layer states companions and leaves this kind out. */
  predicate Excludes(layer: KindPolicy, k: Kind) {
    layer.companions.Some? && k !in layer.companions.value
  }

  predicate ExcludesScheme(text: Text, layer: KindPolicy, s: string) {
    layer.schemes.Some? && s !in Normalized(text, layer.schemes.value)
  }

  function One(layer: Option<KindPolicy>): set<KindPolicy> {
    if layer.Some? then {layer.value} else {}
  }

  ghost function Layers(op: Option<KindPolicy>, pr: Option<KindPolicy>, anchors: set<KindPolicy>): set<KindPolicy> {
    One(op) + One(pr) + anchors
  }

  /** Unrestricted when no layer states companions, else the kinds no stating layer leaves out. */
  ghost predicate CompanionsMeet(layers: set<KindPolicy>, companions: Option<set<Kind>>) {
    && (companions.Some? <==> exists l | l in layers :: l.companions.Some?)
    && (companions.Some? ==> forall k :: k in companions.value <==> forall l | l in layers :: !Excludes(l, k))
  }

  /** The schemes no stating layer leaves out, starting from the built-in ones unless the operator states its own. */
  ghost predicate SchemesMeet(text: Text, builtIn: bool, layers: set<KindPolicy>, schemes: set<string>) {
    forall s :: s in schemes <==>
      (builtIn ==> s in DEFAULT_SCHEMES) && forall l | l in layers :: !ExcludesScheme(text, l, s)
  }

  predicate StatesSchemes(layer: Option<KindPolicy>) {
    layer.Some? && layer.value.schemes.Some?
  }

  ghost predicate SetsMeet(text: Text, op: Option<KindPolicy>, pr: Option<KindPolicy>, anchors: set<KindPolicy>,
                           e: Effective) {
    && CompanionsMeet(Layers(op, pr, anchors), e.companions)
    && SchemesMeet(text, !StatesSchemes(op), Layers(op, pr, anchors), e.schemes)
  }

  function If<T>(b: bool, x: T): seq<T> {
    if b then [x] else []
  }

  /** An ambiguity is reported exactly for each field on which the anchors disagree, in a fixed order. */
  ghost predicate AmbiguitiesMeet(anchors: set<KindPolicy>, e: Effective) {
    e.ambiguities ==
      If(Disagree(Stated(anchors, Require)), Required) + If(Disagree(Stated(anchors, Identify)), RequireIdentity) +
      If(Disagree(Stated(anchors, Descend)), IncludeDescendants) + If(Disagree(Defaults(anchors)), DefaultContext)
  }

  function Spoken(text: Text, layer: Option<KindPolicy>): seq<string> {
    if layer.Some? && layer.value.guidance.Some? && text.trim(layer.value.guidance.value) != ""
    then [text.trim(layer.value.guidance.value)] else []
  }

  /** Guidance starts with the operator's and the principal's, and then holds each new one of the anchors once. */
  ghost predicate GuidanceMeets(text: Text, base: seq<string>, anchors: set<KindPolicy>, guidance: seq<string>) {
    && base <= guidance
    && (forall i: nat, j: nat | |base| <= j < |guidance| && i < j :: guidance[i] != guidance[j])
    && (forall g :: g in guidance <==> g in base || exists a | a in anchors :: g in Spoken(text, Some(a)))
  }

  /** What the merged policy of one kind has to be. Anchors enter as a set: their order and repetition do not matter. */
  ghost predicate Meets(text: Text, kind: Kind, op: Option<KindPolicy>, pr: Option<KindPolicy>,
                        anchors: set<KindPolicy>, e: Effective) {
    && e.kind == kind
    && FlagsMeet(kind, op, pr, anchors, e)
    && DefaultMeets(op, pr, anchors, e)
    && SetsMeet(text, op, pr, anchors, e)
    && AmbiguitiesMeet(anchors, e)
    && GuidanceMeets(text, Spoken(text, op) + Spoken(text, pr), anchors, e.guidance)
  }

  // ---- What the specification gives ----

  /** Operator denials and requirements survive every principal and every anchor. */
  lemma OperatorCeilingHolds(text: Text, kind: Kind, op: KindPolicy, pr: Option<KindPolicy>, anchors: set<KindPolicy>,
                             e: Effective)
    requires Meets(text, kind, Some(op), pr, anchors, e)
    ensures op.allowed == Some(false) ==> !e.allowed
    ensures op.agentCreation == Some(false) ==> !e.agentCreation
    ensures op.required == Some(true) ==> e.required
    ensures op.requireIdentity == Some(true) ==> e.requireIdentity
  {
    assert Says(Some(op), Allow) == op.allowed && Says(Some(op), Create) == op.agentCreation;
    assert Says(Some(op), Require) == op.required && Says(Some(op), Identify) == op.requireIdentity;
  }

  /** One more anchor never enlarges the companion kinds or the identity schemes. */
  lemma ExtraAnchorNarrows(text: Text, kind: Kind, op: Option<KindPolicy>, pr: Option<KindPolicy>,
                           anchors: set<KindPolicy>, extra: KindPolicy, e: Effective, f: Effective)
    requires Meets(text, kind, op, pr, anchors, e) && Meets(text, kind, op, pr, anchors + {extra}, f)
    ensures f.schemes <= e.schemes
    ensures e.companions.Some? ==> f.companions.Some? && f.companions.value <= e.companions.value
  {
    var few, more := Layers(op, pr, anchors), Layers(op, pr, anchors + {extra});
    assert few <= more;
    forall s | s in f.schemes ensures s in e.schemes {
      assert forall l | l in few :: l in more;
    }
    if e.companions.Some? {
      var l :| l in few && l.companions.Some?;
      assert l in more;
      forall k | k in f.companions.value ensures k in e.companions.value {
        assert forall l | l in few :: l in more;
      }
    }
  }

  lemma UnanimousDetermines<T(!new)>(values: set<T>, inherited: T, a: T, b: T)
    requires Unanimous(values, inherited, a) && Unanimous(values, inherited, b)
    ensures a == b
  {
    if v :| values == {v} {
      assert a == v && b == v;
    }
  }

  lemma FlagsDetermined(kind: Kind, op: Option<KindPolicy>, pr: Option<KindPolicy>, anchors: set<KindPolicy>,
                        e: Effective, f: Effective)
    requires FlagsMeet(kind, op, pr, anchors, e) && FlagsMeet(kind, op, pr, anchors, f)
    ensures e.allowed == f.allowed && e.agentCreation == f.agentCreation && e.required == f.required
    ensures e.requireIdentity == f.requireIdentity && e.includeDescendants == f.includeDescendants
  {
    var d := Else(Or(Says(pr, Descend), Says(op, Descend)), false);
    UnanimousDetermines(Stated(anchors, Descend), d, e.includeDescendants, f.includeDescendants);
    if Says(op, Require) != Some(true) {
      UnanimousDetermines(Stated(anchors, Require), Else(Or(Says(pr, Require), Says(op, Require)), false), e.required,
                          f.required);
    }
    if Says(op, Identify) != Some(true) {
      UnanimousDetermines(Stated(anchors, Identify), Else(Or(Says(pr, Identify), Says(op, Identify)), kind == PROJECT),
                          e.requireIdentity, f.requireIdentity);
    }
  }

  lemma DefaultDetermined(op: Option<KindPolicy>, pr: Option<KindPolicy>, anchors: set<KindPolicy>, e: Effective,
                          f: Effective)
    requires DefaultMeets(op, pr, anchors, e) && DefaultMeets(op, pr, anchors, f)
    ensures e.defaultContext == f.defaultContext
  {
    if c :| Defaults(anchors) == {c} {
      assert e.defaultContext == Some(c) && f.defaultContext == Some(c);
    }
  }

  /** Reordering or duplicating anchors changes nothing but the order of the guidance. */
  lemma AnchorOrderIsIrrelevant(text: Text, kind: Kind, op: Option<KindPolicy>, pr: Option<KindPolicy>,
                                anchors: set<KindPolicy>, e: Effective, f: Effective)
    requires Meets(text, kind, op, pr, anchors, e) && Meets(text, kind, op, pr, anchors, f)
    ensures e.(guidance := []) == f.(guidance := [])
    ensures Members(e.guidance) == Members(f.guidance)
  {
    FlagsDetermined(kind, op, pr, anchors, e, f);
    DefaultDetermined(op, pr, anchors, e, f);
    assert e.schemes == f.schemes;
    assert e.companions.Some? ==> e.companions.value == f.companions.value;
  }

  // ---- The merge itself ----

  lemma SizeTellsAgreement<T(!new)>(values: set<T>)
    ensures |values| == 1 ==> exists v :: values == {v}
    ensures |values| > 1 ==> Disagree(values)
    ensures |values| <= 1 ==> !Disagree(values)
    ensures (exists v :: values == {v}) ==> |values| == 1
  {
    if |values| > 0 {
      assert values != {};
      var v :| v in values;
      assert values == {v} + (values - {v});
      if |values| > 1 {
        var u :| u in values - {v};
      } else {
        assert values - {v} == {};
      }
    }
  }

  lemma TheOnly<T>(values: set<T>) returns (v: T)
    requires |values| == 1
    ensures v in values && values == {v}
  {
    v :| v in values;
    assert values == {v} + (values - {v});
    assert values - {v} == {};
  }

  /** merge_anchor_bool. */
  method MergeAnchorBool(values: set<bool>, target: bool, name: Ambiguity, before: seq<Ambiguity>)
    returns (r: bool, ambiguities: seq<Ambiguity>)
    ensures Unanimous(values, target, r)
    ensures ambiguities == before + If(Disagree(values), name)
  {
    SizeTellsAgreement(values);
    r, ambiguities := target, before;
    if |values| == 1 {
      ghost var w := TheOnly(values);
      var v :| v in values;
      r := v;
    } else if |values| > 1 {
      ambiguities := ambiguities + [name];
    }
  }

  method MergeAnchorDefault(values: set<ContextId>, target: Option<ContextId>, before: seq<Ambiguity>)
    returns (r: Option<ContextId>, ambiguities: seq<Ambiguity>)
    ensures forall c | values == {c} :: r == Some(c)
    ensures (forall c :: values != {c}) ==> r == target
    ensures ambiguities == before + If(Disagree(values), DefaultContext)
  {
    SizeTellsAgreement(values);
    r, ambiguities := target, before;
    if |values| == 1 {
      ghost var w := TheOnly(values);
      var c :| c in values;
      r := Some(c);
    } else if |values| > 1 {
      ambiguities := ambiguities + [DefaultContext];
    }
  }

  /** intersect_optional_kind_set. */
  function Intersect(current: Option<set<Kind>>, next: Option<seq<Kind>>): Option<set<Kind>> {
    if next.None? then current
    else if current.None? then Some(Members(next.value))
    else Some(current.value * Members(next.value))
  }

  function IntersectSchemes(text: Text, current: set<string>, next: Option<seq<string>>): set<string> {
    if next.None? then current else current * Normalized(text, next.value)
  }

  lemma OneMoreLayer(text: Text, builtIn: bool, layers: set<KindPolicy>, l: KindPolicy, companions: Option<set<Kind>>,
                     schemes: set<string>)
    requires CompanionsMeet(layers, companions) && SchemesMeet(text, builtIn, layers, schemes)
    ensures CompanionsMeet(layers + {l}, Intersect(companions, l.companions))
    ensures SchemesMeet(text, builtIn, layers + {l}, IntersectSchemes(text, schemes, l.schemes))
  {
    CompanionsNarrow(layers, l, companions);
    SchemesNarrow(text, builtIn, layers, l, schemes);
  }

  lemma CompanionsNarrow(layers: set<KindPolicy>, l: KindPolicy, companions: Option<set<Kind>>)
    requires CompanionsMeet(layers, companions)
    ensures CompanionsMeet(layers + {l}, Intersect(companions, l.companions))
  {
    var after := Intersect(companions, l.companions);
    if l.companions.Some? {
      assert l in layers + {l};
    }
    if m :| m in layers && m.companions.Some? {
      assert m in layers + {l};
    }
    if after.Some? {
      forall k ensures k in after.value <==> forall m | m in layers + {l} :: !Excludes(m, k) {
        assert (forall m | m in layers + {l} :: !Excludes(m, k)) <==>
               (forall m | m in layers :: !Excludes(m, k)) && !Excludes(l, k);
        if companions.None? {
          assert forall m | m in layers :: !Excludes(m, k);
        }
      }
    }
  }

  lemma SchemesNarrow(text: Text, builtIn: bool, layers: set<KindPolicy>, l: KindPolicy, schemes: set<string>)
    requires SchemesMeet(text, builtIn, layers, schemes)
    ensures SchemesMeet(text, builtIn, layers + {l}, IntersectSchemes(text, schemes, l.schemes))
  {
    forall s
      ensures (forall m | m in layers + {l} :: !ExcludesScheme(text, m, s)) <==>
              (forall m | m in layers :: !ExcludesScheme(text, m, s)) && !ExcludesScheme(text, l, s)
    {
    }
  }

  lemma OneMoreVoice(text: Text, base: seq<string>, anchors: set<KindPolicy>, l: KindPolicy, guidance: seq<string>,
                     said: seq<string>)
    requires GuidanceMeets(text, base, anchors, guidance) && said == Spoken(text, Some(l))
    ensures GuidanceMeets(text, base, anchors + {l},
                          if said == [] || said[0] in guidance then guidance else guidance + said)
  {
    assert forall g :: (exists a | a in anchors + {l} :: g in Spoken(text, Some(a))) <==>
                       (exists a | a in anchors :: g in Spoken(text, Some(a))) || g in said by {
      forall g ensures (exists a | a in anchors + {l} :: g in Spoken(text, Some(a))) <==>
                       (exists a | a in anchors :: g in Spoken(text, Some(a))) || g in said {
        if g in said {
          assert l in anchors + {l};
        }
        if a :| a in anchors && g in Spoken(text, Some(a)) {
          assert a in anchors + {l};
        }
      }
    }
  }

  /** The loop over the anchors for companions, schemes and guidance. */
  method MergeAnchorSets(text: Text, op: Option<KindPolicy>, pr: Option<KindPolicy>, anchors: seq<KindPolicy>,
                         companions0: Option<set<Kind>>, schemes0: set<string>, base: seq<string>)
    returns (companions: Option<set<Kind>>, schemes: set<string>, guidance: seq<string>)
    requires CompanionsMeet(Layers(op, pr, {}), companions0)
    requires SchemesMeet(text, !StatesSchemes(op), Layers(op, pr, {}), schemes0)
    ensures CompanionsMeet(Layers(op, pr, Members(anchors)), companions)
    ensures SchemesMeet(text, !StatesSchemes(op), Layers(op, pr, Members(anchors)), schemes)
    ensures GuidanceMeets(text, base, Members(anchors), guidance)
  {
    companions, schemes, guidance := companions0, schemes0, base;
    for k := 0 to |anchors|
      invariant CompanionsMeet(Layers(op, pr, Members(anchors[..k])), companions)
      invariant SchemesMeet(text, !StatesSchemes(op), Layers(op, pr, Members(anchors[..k])), schemes)
      invariant GuidanceMeets(text, base, Members(anchors[..k]), guidance)
    {
      ghost var seen := Members(anchors[..k]);
      assert Members(anchors[..k + 1]) == seen + {anchors[k]};
      assert Layers(op, pr, seen + {anchors[k]}) == Layers(op, pr, seen) + {anchors[k]};
      OneMoreLayer(text, !StatesSchemes(op), Layers(op, pr, seen), anchors[k], companions, schemes);
      companions := Intersect(companions, anchors[k].companions);
      schemes := IntersectSchemes(text, schemes, anchors[k].schemes);
      var said := Spoken(text, Some(anchors[k]));
      OneMoreVoice(text, base, seen, anchors[k], guidance, said);
      if said != [] && said[0] !in guidance {
        guidance := guidance + said;
      }
    }
    assert anchors[..|anchors|] == anchors;
  }

  /** The operator and principal layers for companions and schemes. */
  method MergeFixedSets(text: Text, op: Option<KindPolicy>, pr: Option<KindPolicy>)
    returns (companions: Option<set<Kind>>, schemes: set<string>)
    ensures CompanionsMeet(Layers(op, pr, {}), companions)
    ensures SchemesMeet(text, !StatesSchemes(op), Layers(op, pr, {}), schemes)
  {
    companions := if op.Some? && op.value.companions.Some? then Some(Members(op.value.companions.value)) else None;
    schemes := if StatesSchemes(op) then Normalized(text, op.value.schemes.value) else DEFAULT_SCHEMES;
    OperatorSets(text, op, companions, schemes);
    if pr.Some? {
      OneMoreLayer(text, !StatesSchemes(op), One(op), pr.value, companions, schemes);
      companions := Intersect(companions, pr.value.companions);
      schemes := IntersectSchemes(text, schemes, pr.value.schemes);
    }
    assert Layers(op, pr, {}) == One(op) + One(pr);
  }

  lemma OperatorSets(text: Text, op: Option<KindPolicy>, companions: Option<set<Kind>>, schemes: set<string>)
    requires companions ==
             if op.Some? && op.value.companions.Some? then Some(Members(op.value.companions.value)) else None
    requires schemes == if StatesSchemes(op) then Normalized(text, op.value.schemes.value) else DEFAULT_SCHEMES
    ensures CompanionsMeet(One(op), companions)
    ensures SchemesMeet(text, !StatesSchemes(op), One(op), schemes)
  {
    if op.Some? {
      assert op.value in One(op);
    }
  }

  /** The capability flags: operator, then principal under the operator's ceiling, then anchors, then the ceiling once
      more. */
  method MergeCapability(op: Option<KindPolicy>, pr: Option<KindPolicy>, anchors: seq<KindPolicy>, f: Flag,
                         default: bool)
    returns (r: bool)
    ensures CapabilityMeets(op, pr, Members(anchors), f, default, r)
  {
    var ceiling := Says(op, f) != Some(false);
    r := Else(Says(op, f), default);
    if pr.Some? {
      r := ceiling && Else(Says(pr, f), r);
    }
    var values := Stated(Members(anchors), f);
    if false in values || !ceiling {
      r := false;
    } else if true in values {
      r := true;
    }
  }

  method MergeRequirement(op: Option<KindPolicy>, pr: Option<KindPolicy>, anchors: seq<KindPolicy>, f: Flag,
                          default: bool, name: Ambiguity, before: seq<Ambiguity>)
    returns (r: bool, ambiguities: seq<Ambiguity>)
    ensures RequirementMeets(op, pr, Members(anchors), f, default, r)
    ensures ambiguities == before + If(Disagree(Stated(Members(anchors), f)), name)
  {
    r := Else(Says(op, f), default);
    if pr.Some? && Says(op, f) != Some(true) {
      r := Else(Says(pr, f), r);
    }
    r, ambiguities := MergeAnchorBool(Stated(Members(anchors), f), r, name, before);
    if Says(op, f) == Some(true) {
      r := true;
    }
  }

  /** evaluate_context_policy. */
  method EvaluatePolicy(text: Text, kind: Kind, op: Option<KindPolicy>, pr: Option<KindPolicy>,
                        anchors: seq<KindPolicy>)
    returns (e: Effective)
    ensures Meets(text, kind, op, pr, Members(anchors), e)
  {
    var project := kind == PROJECT;
    var allowed := MergeCapability(op, pr, anchors, Allow, true);
    var creation := MergeCapability(op, pr, anchors, Create, project);
    var required, identity, descend, default, ambiguities;
    required, ambiguities := MergeRequirement(op, pr, anchors, Require, false, Required, []);
    identity, ambiguities := MergeRequirement(op, pr, anchors, Identify, project, RequireIdentity, ambiguities);
    descend := Else(Or(Says(pr, Descend), Says(op, Descend)), false);
    descend, ambiguities := MergeAnchorBool(Stated(Members(anchors), Descend), descend, IncludeDescendants,
                                            ambiguities);
    default, ambiguities := MergeAnchorDefault(Defaults(Members(anchors)), Or(DefaultOf(pr), DefaultOf(op)),
                                               ambiguities);
    var companions, schemes := MergeFixedSets(text, op, pr);
    var guidance;
    companions, schemes, guidance := MergeAnchorSets(text, op, pr, anchors, companions, schemes,
                                                     Spoken(text, op) + Spoken(text, pr));
    e := Effective(kind, allowed, required, companions, schemes, creation, identity, default, descend, guidance,
                   ambiguities);
  }

  // ---- Choosing the layers ----

  datatype Layer = Operator | Principal

  datatype PolicyRecord = PolicyRecord(layer: Layer, kind: Kind, policy: KindPolicy)

  datatype AnchorRecord = AnchorRecord(anchor: ContextId, kinds: map<Kind, KindPolicy>)

  datatype KindDefinition = KindDefinition(kind: Kind, enabled: bool)

  function FirstPolicy(policies: seq<PolicyRecord>, layer: Layer, kind: Kind): (r: Option<KindPolicy>)
    ensures r.Some? ==> exists i: nat | i < |policies| :: policies[i] == PolicyRecord(layer, kind, r.value) &&
                          forall j: nat | j < i :: policies[j].layer != layer || policies[j].kind != kind
    ensures r.None? ==> forall i: nat | i < |policies| :: policies[i].layer != layer || policies[i].kind != kind
  {
    if policies == [] then None
    else if policies[0].layer == layer && policies[0].kind == kind then Some(policies[0].policy)
    else FirstPolicy(policies[1..], layer, kind)
  }

  function FirstDefinition(definitions: seq<KindDefinition>, kind: Kind): Option<KindDefinition> {
    if definitions == [] then None
    else if definitions[0].kind == kind then Some(definitions[0])
    else FirstDefinition(definitions[1..], kind)
  }

  predicate Applies(r: AnchorRecord, active: set<ContextId>, kind: Kind) {
    r.anchor in active && kind in r.kinds
  }

  /** The active anchors that say something about this kind. */
  function AnchorIds(anchors: seq<AnchorRecord>, active: set<ContextId>, kind: Kind): (ids: seq<ContextId>)
    ensures forall x :: x in ids <==> exists r | r in anchors :: Applies(r, active, kind) && r.anchor == x
  {
    if anchors == [] then []
    else
      var last, rest := anchors[|anchors| - 1], anchors[..|anchors| - 1];
      assert forall r :: r in anchors <==> r in rest || r == last;
      AnchorIds(rest, active, kind) + if Applies(last, active, kind) then [last.anchor] else []
  }

  /** The records that survive the specificity filter, in order, as the policies they hold for the kind. */
  ghost function ChosenFrom(anchors: seq<AnchorRecord>, retained: set<ContextId>, active: set<ContextId>,
                            kind: Kind): (chosen: seq<KindPolicy>)
    ensures forall q :: q in chosen <==>
              exists i: nat | i < |anchors| :: Applies(anchors[i], active, kind) && anchors[i].anchor in retained &&
                anchors[i].kinds[kind] == q
  {
    if anchors == [] then []
    else
      var n := |anchors| - 1;
      var last := anchors[n];
      ChosenFrom(anchors[..n], retained, active, kind) +
        if Applies(last, active, kind) && last.anchor in retained then [last.kinds[kind]] else []
  }

  /** The applicable anchors of a kind. */
  ghost function Applicable(anchors: seq<AnchorRecord>, active: set<ContextId>, kind: Kind): set<ContextId> {
    Members(AnchorIds(anchors, active, kind))
  }

  /** The policies of the most specific applicable anchors. */
  ghost function MostSpecific(p: Parents, anchors: seq<AnchorRecord>, active: set<ContextId>,
                              kind: Kind): set<KindPolicy> {
    Members(ChosenFrom(anchors, Retained(p, Applicable(anchors, active, kind)), active, kind))
  }

  /** Anchors have a say in the merge if and only if some applicable one shares its cycle with no other applicable
      one. */
  lemma AnchorsSpeakExactly(p: Parents, anchors: seq<AnchorRecord>, active: set<ContextId>, kind: Kind)
    ensures var ids := Applicable(anchors, active, kind);
            MostSpecific(p, anchors, active, kind) != {} <==> exists x | x in ids :: !HasPartner(p, ids, x)
  {
    var ids := Applicable(anchors, active, kind);
    SomethingIsRetainedExactly(p, ids);
    RetainedSpeak(p, anchors, active, kind);
  }

  lemma RetainedSpeak(p: Parents, anchors: seq<AnchorRecord>, active: set<ContextId>, kind: Kind)
    ensures MostSpecific(p, anchors, active, kind) != {} <==> Retained(p, Applicable(anchors, active, kind)) != {}
  {
    var ids := AnchorIds(anchors, active, kind);
    var retained := Retained(p, Members(ids));
    forall x | x in retained
      ensures exists i: nat | i < |anchors| :: Applies(anchors[i], active, kind) && anchors[i].anchor == x
    {
      assert x in ids;
      var r :| r in anchors && Applies(r, active, kind) && r.anchor == x;
    }
    ChosenWhenRetained(anchors, retained, active, kind);
  }

  lemma ChosenWhenRetained(anchors: seq<AnchorRecord>, retained: set<ContextId>, active: set<ContextId>, kind: Kind)
    requires forall x | x in retained ::
               exists i: nat | i < |anchors| :: Applies(anchors[i], active, kind) && anchors[i].anchor == x
    ensures Members(ChosenFrom(anchors, retained, active, kind)) != {} <==> retained != {}
  {
    var chosen := ChosenFrom(anchors, retained, active, kind);
    if x :| x in retained {
      var i: nat :| i < |anchors| && Applies(anchors[i], active, kind) && anchors[i].anchor == x;
      assert anchors[i].kinds[kind] in Members(chosen);
    }
    if q :| q in Members(chosen) {
      assert q in chosen;
    }
  }

  /** Every applicable anchor is retained or has a retained one strictly below it, if and only if below every two
      applicable anchors of one cycle there is one off the cycle. */
  lemma DiscardedAnchorsAreRefined(p: Parents, anchors: seq<AnchorRecord>, active: set<ContextId>, kind: Kind)
    ensures var ids := Applicable(anchors, active, kind);
            (forall r | r in anchors && Applies(r, active, kind) && r.anchor !in Retained(p, ids) ::
               exists y | y in Retained(p, ids) :: ProperAncestor(p, r.anchor, y)) <==> CyclesAreRefined(p, ids)
  {
    var ids := Applicable(anchors, active, kind);
    DiscardedAreRefinedExactly(p, ids);
    assert forall x :: x in ids <==> exists r | r in anchors :: Applies(r, active, kind) && r.anchor == x;
  }

  method SelectAnchors(kind: Kind, anchors: seq<AnchorRecord>, records: seq<ContextRecord>, active: set<ContextId>)
    returns (chosen: seq<KindPolicy>)
    ensures chosen == ChosenFrom(anchors, Retained(ById(records), Applicable(anchors, active, kind)), active, kind)
  {
    var ids := AnchorIds(anchors, active, kind);
    ghost var retained := Retained(ById(records), Members(ids));
    chosen := [];
    for k := 0 to |anchors|
      invariant chosen == ChosenFrom(anchors[..k], retained, active, kind)
    {
      assert anchors[..k + 1][..k] == anchors[..k];
      if Applies(anchors[k], active, kind) {
        var superseded := HasDescendant(records, ids, anchors[k].anchor);
        assert (set y | y in ids) == Members(ids) && anchors[k] in anchors && anchors[k].anchor in ids;
        if !superseded {
          chosen := chosen + [anchors[k].kinds[kind]];
        }
      }
    }
    assert anchors[..|anchors|] == anchors;
  }

  function Notice(kind: Kind): string {
    "Context kind " + kind + " is disabled by the operator."
  }

  /** The merge of the given layers, denied with a notice unless the kind is enabled. */
  ghost predicate MeetsIfEnabled(text: Text, kind: Kind, op: Option<KindPolicy>, pr: Option<KindPolicy>,
                                 anchors: set<KindPolicy>, enabled: bool, e: Effective)
  {
    exists merged :: Meets(text, kind, op, pr, anchors, merged) &&
      e == if enabled then merged else merged.(allowed := false, guidance := merged.guidance + [Notice(kind)])
  }

  predicate Enabled(definitions: seq<KindDefinition>, kind: Kind) {
    FirstDefinition(definitions, kind).Some? && FirstDefinition(definitions, kind).value.enabled
  }

  /** evaluate_effective_context_policy: merges the chosen layers, and denies a kind that is not defined or not
      enabled. */
  method EvaluateEffective(text: Text, kind: Kind, definitions: seq<KindDefinition>, policies: seq<PolicyRecord>,
                           anchors: seq<AnchorRecord>, records: seq<ContextRecord>, active: set<ContextId>)
    returns (e: Effective)
    ensures MeetsIfEnabled(text, kind, FirstPolicy(policies, Operator, kind), FirstPolicy(policies, Principal, kind),
                           MostSpecific(ById(records), anchors, active, kind), Enabled(definitions, kind), e)
  {
    var chosen := SelectAnchors(kind, anchors, records, active);
    e := EvaluatePolicy(text, kind, FirstPolicy(policies, Operator, kind), FirstPolicy(policies, Principal, kind),
                        chosen);
    ghost var merged := e;
    var d := FirstDefinition(definitions, kind);
    if d.None? || !d.value.enabled {
      e := e.(allowed := false, guidance := e.guidance + [Notice(kind)]);
    }
  }
}
