/** The target database's database-level extended properties, used as a
    key/value store: `CheckExtendedPropertyAsync` reads it and
    `UpdateExtendedPropertyAsync` writes it. The database keeps at most one
    property per name; `Contents` is the map view of the rows. */
module PropertyStore {
  import opened Wrappers

  /** One extended property row: its name and its value. */
  datatype Property = Property(name: string, value: string)

  predicate UniqueNames(ps: seq<Property>) {
    forall i, j :: 0 <= i < j < |ps| ==> ps[i].name != ps[j].name
  }

  predicate HasName(ps: seq<Property>, name: string) {
    exists i :: 0 <= i < |ps| && ps[i].name == name
  }

  /** The name-to-value map the rows represent. */
  function AsMap(ps: seq<Property>): map<string, string>
    decreases |ps|
  {
    if ps == [] then map[] else AsMap(ps[1..])[ps[0].name := ps[0].value]
  }

  lemma {:induction false} AsMapKeys(ps: seq<Property>, name: string)
    ensures name in AsMap(ps) <==> HasName(ps, name)
    decreases |ps|
  {
    if ps != [] {
      AsMapKeys(ps[1..], name);
      if HasName(ps[1..], name) {
        var i :| 0 <= i < |ps[1..]| && ps[1..][i].name == name;
        assert ps[i + 1].name == name;
      }
      if HasName(ps, name) && ps[0].name != name {
        var i :| 0 <= i < |ps| && ps[i].name == name;
        assert ps[1..][i - 1].name == name;
      }
    }
  }

  lemma {:induction false} AsMapAt(ps: seq<Property>, i: int)
    requires UniqueNames(ps) && 0 <= i < |ps|
    ensures ps[i].name in AsMap(ps) && AsMap(ps)[ps[i].name] == ps[i].value
    decreases |ps|
  {
    if i > 0 {
      AsMapAt(ps[1..], i - 1);
    }
  }

  /** The scalar `ExecuteScalar` reads from
      `SELECT CAST(1 AS BIT) ... WHERE [value] = @Expected AND [name] = @dacpacId`:
      the bit of the first matching row, or null (None) when no row matches. */
  function FirstMatch(ps: seq<Property>, name: string, expected: string): (r: Option<bool>)
    ensures r.Some? ==> r.value
    ensures r.Some? <==> exists i :: 0 <= i < |ps| && ps[i] == Property(name, expected)
    decreases |ps|
  {
    if ps == [] then None
    else if ps[0].value == expected && ps[0].name == name then Some(true)
    else
      var rest := FirstMatch(ps[1..], name, expected);
      assert forall i :: 1 <= i < |ps| ==> ps[i] == ps[1..][i - 1];
      rest
  }

  /** With one row per name, a matching row exists iff the map holds that value. */
  lemma MatchIffStored(ps: seq<Property>, name: string, expected: string)
    requires UniqueNames(ps)
    ensures FirstMatch(ps, name, expected).Some? <==> name in AsMap(ps) && AsMap(ps)[name] == expected
  {
    AsMapKeys(ps, name);
    if name in AsMap(ps) {
      var i :| 0 <= i < |ps| && ps[i].name == name;
      AsMapAt(ps, i);
    }
  }

  /** `sp_updateextendedproperty`: the row with that name gets the new value. */
  function UpdateValue(ps: seq<Property>, name: string, value: string): (r: seq<Property>)
    ensures |r| == |ps|
    ensures forall i :: 0 <= i < |ps| ==> r[i].name == ps[i].name
    ensures forall i :: 0 <= i < |ps| && ps[i].name == name ==> r[i].value == value
    ensures forall i :: 0 <= i < |ps| && ps[i].name != name ==> r[i] == ps[i]
  {
    seq(|ps|, i requires 0 <= i < |ps| => if ps[i].name == name then Property(name, value) else ps[i])
  }

  /** Updating a value never changes a name, so unique names stay unique. */
  lemma UpdateValueUnique(ps: seq<Property>, name: string, value: string)
    requires UniqueNames(ps)
    ensures UniqueNames(UpdateValue(ps, name, value))
  {
    var r := UpdateValue(ps, name, value);
    forall i, j | 0 <= i < j < |r| ensures r[i].name != r[j].name {
      assert r[i].name == ps[i].name && r[j].name == ps[j].name;
    }
  }

  /** `UpdateValue` works row by row: the head, then the rest. */
  lemma UpdateValueCons(ps: seq<Property>, name: string, value: string)
    requires ps != []
    ensures var r := UpdateValue(ps, name, value);
      r != [] && r[0] == (if ps[0].name == name then Property(name, value) else ps[0])
      && r[1..] == UpdateValue(ps[1..], name, value)
  {
  }

  lemma UpdateTwice(m: map<string, string>, k: string, v1: string, v2: string)
    ensures m[k := v1][k := v2] == m[k := v2]
  {
  }

  lemma UpdateCommutes(m: map<string, string>, k1: string, v1: string, k2: string, v2: string)
    requires k1 != k2
    ensures m[k1 := v1][k2 := v2] == m[k2 := v2][k1 := v1]
  {
  }

  /** The name is in the first row: only that row changes. */
  lemma UpdateValueMapHead(ps: seq<Property>, name: string, value: string)
    requires UniqueNames(ps) && ps != [] && ps[0].name == name
    ensures AsMap(UpdateValue(ps, name, value)) == AsMap(ps)[name := value]
  {
    UpdateValueCons(ps, name, value);
    var head, tail := ps[0], ps[1..];
    assert UpdateValue(tail, name, value) == tail by {
      forall i | 0 <= i < |tail| ensures tail[i].name != name {
        assert tail[i] == ps[i + 1];
      }
    }
    calc {
      AsMap(UpdateValue(ps, name, value));
      AsMap(tail)[name := value];
      { UpdateTwice(AsMap(tail), name, head.value, value); }
      AsMap(tail)[name := head.value][name := value];
      AsMap(ps)[name := value];
    }
  }

  /** The name is in a later row: the first row is kept, and the update of
      the rest commutes with it. */
  lemma UpdateValueMapTail(ps: seq<Property>, name: string, value: string)
    requires ps != [] && ps[0].name != name
    requires AsMap(UpdateValue(ps[1..], name, value)) == AsMap(ps[1..])[name := value]
    ensures AsMap(UpdateValue(ps, name, value)) == AsMap(ps)[name := value]
  {
    UpdateValueCons(ps, name, value);
    var head, tail := ps[0], ps[1..];
    calc {
      AsMap(UpdateValue(ps, name, value));
      AsMap(UpdateValue(tail, name, value))[head.name := head.value];
      AsMap(tail)[name := value][head.name := head.value];
      { UpdateCommutes(AsMap(tail), name, value, head.name, head.value); }
      AsMap(tail)[head.name := head.value][name := value];
      AsMap(ps)[name := value];
    }
  }

  lemma {:induction false} UpdateValueMap(ps: seq<Property>, name: string, value: string)
    requires UniqueNames(ps) && HasName(ps, name)
    ensures UniqueNames(UpdateValue(ps, name, value))
    ensures AsMap(UpdateValue(ps, name, value)) == AsMap(ps)[name := value]
    decreases |ps|
  {
    UpdateValueUnique(ps, name, value);
    if ps[0].name == name {
      UpdateValueMapHead(ps, name, value);
    } else {
      var i :| 0 <= i < |ps| && ps[i].name == name;
      assert ps[1..][i - 1].name == name;
      UpdateValueMap(ps[1..], name, value);
      UpdateValueMapTail(ps, name, value);
    }
  }

  /** `sp_addextendedproperty` of a name not yet present. */
  lemma {:induction false} AppendMap(ps: seq<Property>, p: Property)
    requires UniqueNames(ps) && !HasName(ps, p.name)
    ensures UniqueNames(ps + [p])
    ensures AsMap(ps + [p]) == AsMap(ps)[p.name := p.value]
    decreases |ps|
  {
    if ps == [] {
      assert ps + [p] == [p];
    } else {
      assert (ps + [p])[1..] == ps[1..] + [p];
      assert ps[0].name != p.name;
      AppendMap(ps[1..], p);
    }
  }

  class Store {
    var properties: seq<Property>

    ghost predicate Valid()
      reads this
    {
      UniqueNames(properties)
    }

    ghost function Contents(): map<string, string>
      reads this
    {
      AsMap(properties)
    }

    constructor (initial: seq<Property>)
      requires UniqueNames(initial)
      ensures Valid() && properties == initial
    {
      properties := initial;
    }

    /** `CheckExtendedPropertyAsync`: a null scalar reads as false, a bit as itself. */
    function Exists(name: string, expected: string): (r: bool)
      reads this
      requires Valid()
      ensures r <==> name in Contents() && Contents()[name] == expected
    {
      MatchIffStored(properties, name, expected);
      match FirstMatch(properties, name, expected)
      case None => false
      case Some(b) => b
    }

    /** `UpdateExtendedPropertyAsync`: update the property when one with that
        name exists, add it otherwise. */
    method Upsert(name: string, value: string)
      requires Valid()
      modifies this
      ensures Valid()
      ensures Contents() == old(Contents())[name := value]
      ensures |properties| == |old(properties)| + (if name in old(Contents()) then 0 else 1)
    {
      AsMapKeys(properties, name);
      if HasName(properties, name) {
        UpdateValueMap(properties, name, value);
        properties := UpdateValue(properties, name, value);
      } else {
        AppendMap(properties, Property(name, value));
        properties := properties + [Property(name, value)];
      }
    }
  }
}
