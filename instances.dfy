/** Measurement instances: Trillians (measurement servers) and their Marvins (browser workers). */
module Instances {
  import opened Common
  import opened Strings
  import opened Orm

  const DualStack := "dual-stack"

  /** The instance type choices, code and label, in declaration order. */
  const InstanceTypeChoices: seq<(string, string)> := [
    ("dual-stack", "Dual-stack"),
    ("v4only", "IPv4-only"),
    ("v6only", "IPv6-only"),
    ("nat64", "IPv6 with NAT64")
  ]

  /** `instance_types`: the choices as a dictionary from code to label. */
  function InstanceTypes(): (m: map<string, string>)
    ensures forall i :: 0 <= i < |InstanceTypeChoices| ==> InstanceTypeChoices[i].0 in m && m[InstanceTypeChoices[i].0] == InstanceTypeChoices[i].1
    ensures forall code :: code in m ==> exists i :: 0 <= i < |InstanceTypeChoices| && InstanceTypeChoices[i].0 == code
    ensures |m| == |InstanceTypeChoices|
  {
    var m := map["dual-stack" := "Dual-stack", "v4only" := "IPv4-only", "v6only" := "IPv6-only", "nat64" := "IPv6 with NAT64"];
    forall code | code in m
      ensures exists i :: 0 <= i < |InstanceTypeChoices| && InstanceTypeChoices[i].0 == code
    {
      if code == "dual-stack" { assert InstanceTypeChoices[0].0 == code; }
      else if code == "v4only" { assert InstanceTypeChoices[1].0 == code; }
      else if code == "v6only" { assert InstanceTypeChoices[2].0 == code; }
      else { assert InstanceTypeChoices[3].0 == code; }
    }
    assert m.Keys == {"dual-stack", "v4only", "v6only", "nat64"};
    m
  }

  predicate IsInstanceType(code: string)
  {
    code in InstanceTypes()
  }

  datatype Trillian = Trillian(name: string, hostname: string, token: string, isAlive: bool, version: seq<nat>)

  /** Everything about a Marvin except its natural key (its Trillian and its name). */
  datatype MarvinDetails = MarvinDetails(hostname: string, kind: string, version: seq<nat>,
                                         browserName: string, browserVersion: seq<nat>, instanceType: string,
                                         addresses: seq<string>, firstSeen: Time, lastSeen: Time)

  datatype Marvin = Marvin(trillian: nat, name: string, details: MarvinDetails)

  /** `'.'.join(map(str, version))`, shared by every `display_version`. */
  function DisplayVersion(version: seq<nat>): string
  {
    Join(seq(|version|, i requires 0 <= i < |version| => NatToString(version[i])), ".")
  }

  /** `Marvin.__str__`: `'{name} ({type})'` with the instance type code. */
  function MarvinLabel(m: Marvin): string
  {
    m.name + " (" + m.details.instanceType + ")"
  }

  /** No instance type code contains an opening parenthesis. */
  lemma InstanceTypesHaveNoParenthesis(code: string)
    requires IsInstanceType(code)
    ensures '(' !in code
  {
  }

  /**
   * The label of a Marvin determines its name and instance type, as long as
   * the type contains no `(` (which holds for every instance type choice).
   */
  lemma {:induction false} MarvinLabelInjective(a: Marvin, b: Marvin)
    requires '(' !in a.details.instanceType && '(' !in b.details.instanceType
    requires MarvinLabel(a) == MarvinLabel(b)
    ensures a.name == b.name && a.details.instanceType == b.details.instanceType
  {
    var s := MarvinLabel(a);
    var ta, tb := a.details.instanceType, b.details.instanceType;
    // Counted from the end, the `(` sits right before the type.
    assert s[|s| - |ta| - 2] == '(';
    assert MarvinLabel(b)[|s| - |tb| - 2] == '(';
    if |ta| == |tb| {
      assert a.name == s[..|a.name|] && b.name == MarvinLabel(b)[..|b.name|];
      assert ta == s[|s| - |ta| - 1..|s| - 1] && tb == MarvinLabel(b)[|s| - |tb| - 1..|s| - 1];
    }
  }

  /** `Trillian.natural_key`: the one-element tuple of its name. */
  function TrillianNaturalKey(t: Trillian): seq<string>
  {
    [t.name]
  }

  /** `TrillianManager.get_by_natural_key`. */
  function GetTrillianByNaturalKey(trillians: seq<Trillian>, name: string): GetResult
  {
    Get(trillians, (t: Trillian) => t.name == name)
  }

  predicate UniqueTrillianNames(trillians: seq<Trillian>)
  {
    forall i, j :: 0 <= i < |trillians| && 0 <= j < |trillians| && i != j ==> trillians[i].name != trillians[j].name
  }

  /** With names unique (the column is `unique=True`) the natural key finds the Trillian it came from. */
  lemma TrillianNaturalKeyRoundTrip(trillians: seq<Trillian>, i: nat)
    requires UniqueTrillianNames(trillians) && i < |trillians|
    ensures GetTrillianByNaturalKey(trillians, TrillianNaturalKey(trillians[i])[0]) == Found(i)
  {
    GetFound(trillians, (t: Trillian) => t.name == trillians[i].name, i);
  }

  /** `Marvin.natural_key`: the name of its Trillian and its own name. */
  function MarvinNaturalKey(trillians: seq<Trillian>, m: Marvin): (string, string)
    requires m.trillian < |trillians|
  {
    (trillians[m.trillian].name, m.name)
  }

  /** `MarvinManager.get_by_natural_key`: `get(trillian__name=..., name=...)`. */
  function GetMarvinByNaturalKey(trillians: seq<Trillian>, marvins: seq<Marvin>, trillianName: string, name: string): GetResult
  {
    Get(marvins, (m: Marvin) => m.trillian < |trillians| && trillians[m.trillian].name == trillianName && m.name == name)
  }

  /** The Marvin table's integrity: every Marvin's Trillian exists and `(trillian, name)` is unique. */
  predicate MarvinsValid(trillians: seq<Trillian>, marvins: seq<Marvin>)
  {
    && (forall i :: 0 <= i < |marvins| ==> marvins[i].trillian < |trillians|)
    && (forall i, j :: 0 <= i < |marvins| && 0 <= j < |marvins| && i != j ==>
          marvins[i].trillian != marvins[j].trillian || marvins[i].name != marvins[j].name)
  }

  /** The pair `unique_together` and the unique Trillian name make a Marvin's natural key identify it. */
  lemma MarvinNaturalKeyRoundTrip(trillians: seq<Trillian>, marvins: seq<Marvin>, i: nat)
    requires UniqueTrillianNames(trillians) && MarvinsValid(trillians, marvins) && i < |marvins|
    ensures var key := MarvinNaturalKey(trillians, marvins[i]);
            GetMarvinByNaturalKey(trillians, marvins, key.0, key.1) == Found(i)
  {
    var key := MarvinNaturalKey(trillians, marvins[i]);
    var p := (m: Marvin) => m.trillian < |trillians| && trillians[m.trillian].name == key.0 && m.name == key.1;
    forall k | 0 <= k < |marvins| && k != i ensures !p(marvins[k]) {
    }
    GetFound(marvins, p, i);
  }
}
