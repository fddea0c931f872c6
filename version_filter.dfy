/** The admin list filter that narrows Trillians or Marvins down to one software version. */
module VersionFilter {
  import opened Common
  import opened Strings
  import opened Orm
  import opened Instances

  /** `lookups`: one choice per distinct stored version, value and label both the dotted version. */
  function Lookups(versions: seq<seq<nat>>): (choices: seq<(string, string)>)
    ensures |choices| == |versions|
    ensures forall i :: 0 <= i < |choices| ==> choices[i].0 == choices[i].1
  {
    seq(|versions|, i requires 0 <= i < |versions| => (DisplayVersion(versions[i]), DisplayVersion(versions[i])))
  }

  /** `map(int, parts)`, failing with a `ValueError` on the first part that is not a number. */
  function ParseAll(parts: seq<string>): (r: Option<seq<nat>>)
    ensures r.Some? ==> |r.value| == |parts|
  {
    if |parts| == 0 then Some([])
    else match (ParseNat(parts[0]), ParseAll(parts[1..]))
      case (Some(n), Some(rest)) => Some([n] + rest)
      case _ => None
  }

  /** `map(int, s.split('.'))`. */
  function ParseVersion(s: string): Option<seq<nat>>
  {
    ParseAll(Split(s, "."))
  }

  /**
   * `queryset`: the primary keys of the rows left by the filter. No value (or an
   * empty one) leaves every row; a value that is not a dotted number is an error.
   */
  function Filter(value: Option<string>, rows: seq<seq<nat>>): (r: Result<seq<nat>, string>)
    ensures value.None? || value == Some("") ==> r == Ok(seq(|rows|, i requires 0 <= i < |rows| => i))
    ensures r.Ok? && value.Some? && value.value != "" ==>
      forall k: nat :: k in r.value <==> k < |rows| && Some(rows[k]) == ParseVersion(value.value)
  {
    if value.None? || value.value == "" then Ok(seq(|rows|, i requires 0 <= i < |rows| => i))
    else match ParseVersion(value.value)
      case None => Err("ValueError")
      case Some(v) => Ok(IndicesWhere(rows, (row: seq<nat>) => row == v))
  }

  function VersionStrings(v: seq<nat>): (parts: seq<string>)
    ensures |parts| == |v|
    ensures forall i :: 0 <= i < |v| ==> parts[i] == NatToString(v[i])
  {
    seq(|v|, i requires 0 <= i < |v| => NatToString(v[i]))
  }

  lemma {:induction false} ParseAllVersionStrings(v: seq<nat>)
    ensures ParseAll(VersionStrings(v)) == Some(v)
    decreases |v|
  {
    if |v| > 0 {
      ParseNatToString(v[0]);
      assert VersionStrings(v)[1..] == VersionStrings(v[1..]);
      ParseAllVersionStrings(v[1..]);
      assert v == [v[0]] + v[1..];
    }
  }

  /** Reading a displayed version back gives the version, for every non-empty version. */
  lemma ParseDisplayVersion(v: seq<nat>)
    requires |v| > 0
    ensures ParseVersion(DisplayVersion(v)) == Some(v)
  {
    var parts := VersionStrings(v);
    assert DisplayVersion(v) == Join(parts, ".");
    forall i | 0 <= i < |parts| ensures '.' !in parts[i] {
      var p := parts[i];
      assert forall k :: 0 <= k < |p| ==> p[k] != '.';
    }
    SplitJoin(parts, '.');
    ParseAllVersionStrings(v);
  }

  /** Picking the choice offered for a non-empty version keeps exactly the rows with that version. */
  lemma ChoiceSelectsItsVersion(versions: seq<seq<nat>>, rows: seq<seq<nat>>, i: nat)
    requires i < |versions| && |versions[i]| > 0
    ensures Filter(Some(Lookups(versions)[i].0), rows).Ok?
    ensures forall k: nat :: k in Filter(Some(Lookups(versions)[i].0), rows).value <==> k < |rows| && rows[k] == versions[i]
  {
    var choice := Lookups(versions)[i].0;
    ParseDisplayVersion(versions[i]);
    assert choice != "" by { assert |NatToString(versions[i][0])| > 0; JoinNonEmpty(VersionStrings(versions[i])); }
  }

  lemma JoinNonEmpty(parts: seq<string>)
    requires |parts| > 0 && |parts[0]| > 0
    ensures Join(parts, ".") != ""
  {
    assert Join(parts, ".")[0] == parts[0][0];
  }

  /** Distinct non-empty versions are offered under distinct labels. */
  lemma LookupsDistinct(versions: seq<seq<nat>>, i: nat, j: nat)
    requires i < |versions| && j < |versions| && |versions[i]| > 0 && |versions[j]| > 0
    requires versions[i] != versions[j]
    ensures Lookups(versions)[i].0 != Lookups(versions)[j].0
  {
    ParseDisplayVersion(versions[i]);
    ParseDisplayVersion(versions[j]);
  }
}
