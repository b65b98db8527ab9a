/**
 * The matching rule of the local-to-cloud migration: which property
 * identifies a node when its relationships are recreated, and which
 * relationships are recreated at all. The drivers, sessions and printed
 * progress are not part of this model.
 */
module Migration {
  import opened Wrappers
  import opened Rows

  /** The first of `keys` whose value is present and truthy, with that value. */
  function Preferred(props: Row, keys: seq<string>): (r: Option<(string, Value)>)
    ensures r.Some? ==> r.value.0 in keys && Lookup(props, r.value.0) == Some(r.value.1) && Truthy(r.value.1)
    ensures r.None? <==> forall k :: k in keys ==> !Truthy(Get(props, k))
    ensures r.Some? ==> exists i :: 0 <= i < |keys| && keys[i] == r.value.0 && forall j :: 0 <= j < i ==> !Truthy(Get(props, keys[j]))
  {
    if |keys| == 0 then None
    else if Truthy(Get(props, keys[0])) then Some((keys[0], Get(props, keys[0])))
    else
      var r := Preferred(props, keys[1..]);
      assert r.Some? ==> exists i :: 0 <= i < |keys| && keys[i] == r.value.0 && forall j :: 0 <= j < i ==> !Truthy(Get(props, keys[j])) by {
        if r.Some? {
          var i :| 0 <= i < |keys[1..]| && keys[1..][i] == r.value.0 && forall j :: 0 <= j < i ==> !Truthy(Get(props, keys[1..][j]));
          assert keys[i + 1] == r.value.0;
          assert forall j :: 0 <= j < i + 1 ==> !Truthy(Get(props, keys[j])) by {
            forall j | 0 <= j < i + 1
              ensures !Truthy(Get(props, keys[j]))
            {
              if j > 0 {
                assert keys[j] == keys[1..][j - 1];
              }
            }
          }
        }
      }
      r
  }

  predicate TruthyString(v: Value) {
    v.Str? && v.s != ""
  }

  /** The first property, in dict order, holding a non-empty string. */
  function FirstTruthyString(props: Row): (r: Option<(string, Value)>)
    ensures r.None? <==> forall i :: 0 <= i < |props| ==> !TruthyString(props[i].1)
    ensures r.Some? ==> exists i :: (0 <= i < |props| && props[i] == r.value && TruthyString(props[i].1)
                                     && forall j :: 0 <= j < i ==> !TruthyString(props[j].1))
  {
    if |props| == 0 then None
    else if TruthyString(props[0].1) then Some(props[0])
    else
      var r := FirstTruthyString(props[1..]);
      assert forall i :: 0 < i < |props| ==> props[i] == props[1..][i - 1];
      if r.Some? then
        var i :| 0 <= i < |props[1..]| && props[1..][i] == r.value && TruthyString(props[1..][i].1)
          && forall j :: 0 <= j < i ==> !TruthyString(props[1..][j].1);
        assert props[i + 1] == r.value;
        r
      else r
  }

  const PreferredKeys := ["name", "title", "description"]

  /** `get_match_property` */
  function MatchProperty(props: Row): Option<(string, Value)> {
    var named := Preferred(props, PreferredKeys);
    if named.Some? then named else FirstTruthyString(props)
  }

  /**
   * A truthy name wins, then a truthy title, then a truthy description;
   * failing all three, the first non-empty string property in dict order;
   * failing that, nothing. Whatever is returned is a truthy value the
   * properties hold under that key.
   */
  lemma MatchPropertyChoice(props: Row)
    ensures Truthy(Get(props, "name")) ==> MatchProperty(props) == Some(("name", Get(props, "name")))
    ensures !Truthy(Get(props, "name")) && Truthy(Get(props, "title")) ==> MatchProperty(props) == Some(("title", Get(props, "title")))
    ensures !Truthy(Get(props, "name")) && !Truthy(Get(props, "title")) && Truthy(Get(props, "description"))
            ==> MatchProperty(props) == Some(("description", Get(props, "description")))
    ensures MatchProperty(props).Some? ==> Truthy(MatchProperty(props).value.1)
    ensures MatchProperty(props).Some? ==> exists i :: 0 <= i < |props| && props[i] == MatchProperty(props).value
    ensures MatchProperty(props).None? <==> (!Truthy(Get(props, "name")) && !Truthy(Get(props, "title")) && !Truthy(Get(props, "description"))
                                            && forall i :: 0 <= i < |props| ==> !TruthyString(props[i].1))
  {
    var r := MatchProperty(props);
    assert PreferredKeys[1..] == ["title", "description"];
    assert PreferredKeys[1..][1..] == ["description"];
    if !Truthy(Get(props, "name")) {
      assert Preferred(props, PreferredKeys) == Preferred(props, ["title", "description"]);
      if !Truthy(Get(props, "title")) {
        assert Preferred(props, ["title", "description"]) == Preferred(props, ["description"]);
      }
    }
    if Preferred(props, PreferredKeys).Some? {
      assert Lookup(props, r.value.0) == Some(r.value.1);
      var i :| 0 <= i < |props| && props[i] == (r.value.0, r.value.1);
      assert props[i] == r.value;
    } else {
      assert "name" in PreferredKeys && "title" in PreferredKeys && "description" in PreferredKeys;
    }
  }

  /** A relationship as exported from the local store. */
  datatype Relationship = Relationship(relType: string, props: Row, startLabel: string, endLabel: string,
                                       startProps: Row, endProps: Row)

  /** Both endpoints can be found again by a property, so the relationship is recreated. */
  predicate Recreated(rel: Relationship) {
    MatchProperty(rel.startProps).Some? && MatchProperty(rel.endProps).Some?
  }

  /** The relationships the migration attempts to recreate, in export order. */
  function RecreatedOf(rels: seq<Relationship>): (r: seq<Relationship>)
    ensures forall x :: x in r <==> x in rels && Recreated(x)
    ensures |r| <= |rels|
  {
    if |rels| == 0 then []
    else
      var last := rels[|rels| - 1];
      RecreatedOf(rels[..|rels| - 1]) + (if Recreated(last) then [last] else [])
  }

  /** An endpoint with no truthy name, title, description or string property loses its relationships. */
  lemma UnmatchableDropped(rel: Relationship)
    requires forall i :: 0 <= i < |rel.startProps| ==> rel.startProps[i].1 == Null
    ensures rel !in RecreatedOf([rel])
  {
    var p := rel.startProps;
    forall k | k in PreferredKeys
      ensures !Truthy(Get(p, k))
    {
      if HasKey(p, k) {
        var i :| 0 <= i < |p| && p[i] == (k, Lookup(p, k).value);
      }
    }
  }
}
