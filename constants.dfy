/** The role table of the transport system (backend/project/myapp/constants.py). */
module Constants {

  /** `ROLE_CHOICES`: (stored value, display label) pairs, in declaration order. */
  const RoleChoices: seq<(string, string)> := [
    ("user", "User"),
    ("driver", "Driver"),
    ("conductor", "Conductor"),
    ("operator", "Operator")
  ]

  /** `[choice[0] for choice in pairs]`: the first component of every pair, in order. */
  function Firsts(pairs: seq<(string, string)>): (r: seq<string>)
    ensures |r| == |pairs|
    ensures forall i :: 0 <= i < |r| ==> r[i] == pairs[i].0
  {
    if pairs == [] then [] else [pairs[0].0] + Firsts(pairs[1..])
  }

  /** `get_role_choices()`. */
  function GetRoleChoices(): (r: seq<string>)
    ensures |r| == |RoleChoices|
    ensures forall i :: 0 <= i < |r| ==> r[i] == RoleChoices[i].0
  {
    Firsts(RoleChoices)
  }

  predicate NoDuplicates(s: seq<string>) {
    forall i, j :: 0 <= i < j < |s| ==> s[i] != s[j]
  }

  /** The role values are exactly these four, in this order, each once. */
  lemma RoleValues()
    ensures GetRoleChoices() == ["user", "driver", "conductor", "operator"]
    ensures NoDuplicates(GetRoleChoices())
  {
    var r := GetRoleChoices();
    assert r[0] == "user" && r[1] == "driver" && r[2] == "conductor" && r[3] == "operator";
  }
}
